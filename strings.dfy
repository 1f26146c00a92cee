/** The few JavaScript string operations the application relies on, stated over `seq<char>`:
    `trim`, `startsWith`/`endsWith`, `slice`/`substring` with non-negative bounds, `toUpperCase`
    on the base-36 alphabet, `replace(/c/g, '')`, `Array.prototype.join` and number-to-string
    for integers. */
module Strings {

  /** The characters `String.prototype.trim` removes: ECMAScript WhiteSpace and LineTerminator. */
  predicate IsSpace(c: char) {
    || c == '\t' || c == '\n' || c == '\U{000B}' || c == '\U{000C}' || c == '\r' || c == ' '
    || c == '\U{00A0}' || c == '\U{1680}' || ('\U{2000}' <= c <= '\U{200A}')
    || c == '\U{2028}' || c == '\U{2029}' || c == '\U{202F}' || c == '\U{205F}'
    || c == '\U{3000}' || c == '\U{FEFF}'
  }

  /** The characters a regular-expression `.` does not match (ECMAScript LineTerminator). */
  predicate IsLineTerminator(c: char) {
    c == '\n' || c == '\r' || c == '\U{2028}' || c == '\U{2029}'
  }

  predicate AllSpace(s: string) {
    forall i :: 0 <= i < |s| ==> IsSpace(s[i])
  }

  predicate StartsWith(s: string, prefix: string) {
    |prefix| <= |s| && s[..|prefix|] == prefix
  }

  predicate EndsWith(s: string, suffix: string) {
    |suffix| <= |s| && s[|s| - |suffix|..] == suffix
  }

  /** `s.trimStart()`: the suffix left after dropping leading white space. */
  function TrimStart(s: string): (r: string)
    ensures |r| <= |s| && r == s[|s| - |r|..]
    ensures r == [] || !IsSpace(r[0])
    ensures forall i :: 0 <= i < |s| - |r| ==> IsSpace(s[i])
  {
    if |s| > 0 && IsSpace(s[0]) then TrimStart(s[1..]) else s
  }

  /** `s.trimEnd()`: the prefix left after dropping trailing white space. */
  function TrimEnd(s: string): (r: string)
    ensures |r| <= |s| && r == s[..|r|]
    ensures r == [] || !IsSpace(r[|r| - 1])
    ensures forall i :: |r| <= i < |s| ==> IsSpace(s[i])
  {
    if |s| > 0 && IsSpace(s[|s| - 1]) then TrimEnd(s[..|s| - 1]) else s
  }

  /** `s.trim()`. */
  function Trim(s: string): (r: string)
    ensures |r| <= |s|
    ensures r == [] || (!IsSpace(r[0]) && !IsSpace(r[|r| - 1]))
  {
    TrimEnd(TrimStart(s))
  }

  /** A string trims to nothing exactly when it is all white space: the test behind every
      "required field" check in the editors. */
  lemma {:induction false} TrimEmptyIffAllSpace(s: string)
    ensures Trim(s) == [] <==> AllSpace(s)
  {
    var t := TrimStart(s);
    assert t == [] || t[0] == s[|s| - |t|];
    if !AllSpace(s) {
      var i :| 0 <= i < |s| && !IsSpace(s[i]);
      var j := i - (|s| - |t|);
      assert t[j] == s[i];
    }
  }

  /** Trimming twice is trimming once. */
  lemma {:induction false} TrimIdempotent(s: string)
    ensures Trim(Trim(s)) == Trim(s)
  {
    var r := Trim(s);
    assert TrimStart(r) == r;
    assert TrimEnd(r) == r;
  }

  /** Trimming text that starts and ends with visible characters leaves it as it is, and
      only the edges of a concatenation are affected. */
  lemma {:induction false} TrimFramed(lead: string, body: string, tail: string)
    requires AllSpace(lead)
    requires |body| > 0 && !IsSpace(body[0]) && !IsSpace(body[|body| - 1])
    ensures Trim(lead + body + tail) == body + TrimEnd(tail)
  {
    TrimStartSkips(lead, body + tail);
    assert lead + body + tail == lead + (body + tail);
    TrimEndKeeps(body, tail);
  }

  lemma {:induction false} TrimStartSkips(lead: string, rest: string)
    requires AllSpace(lead)
    requires |rest| > 0 && !IsSpace(rest[0])
    ensures TrimStart(lead + rest) == rest
    decreases |lead|
  {
    if lead == [] {
      assert lead + rest == rest;
    } else {
      assert (lead + rest)[1..] == lead[1..] + rest;
      TrimStartSkips(lead[1..], rest);
    }
  }

  lemma {:induction false} TrimEndKeeps(body: string, tail: string)
    requires |body| > 0 && !IsSpace(body[|body| - 1])
    ensures TrimEnd(body + tail) == body + TrimEnd(tail)
    decreases |tail|
  {
    if tail == [] {
      assert body + tail == body;
    } else {
      var s := body + tail;
      assert s[..|s| - 1] == body + tail[..|tail| - 1];
      if IsSpace(tail[|tail| - 1]) {
        TrimEndKeeps(body, tail[..|tail| - 1]);
      }
    }
  }

  /** `s.slice(from, to)` for non-negative bounds: both ends are clamped to the length, and
      the result is empty when they cross. `substring` agrees with it when `from <= to`. */
  function Slice(s: string, from: nat, to: nat): (r: string)
    ensures |r| <= |s| && (from <= to ==> |r| <= to - from)
    ensures from <= to <= |s| ==> r == s[from..to]
    ensures from < |s| <= to ==> r == s[from..]
  {
    var a := if from < |s| then from else |s|;
    var b := if to < |s| then to else |s|;
    if a < b then s[a..b] else []
  }

  /** `s.replace(/c/g, '')`. */
  function Without(s: string, c: char): (r: string)
    ensures c !in r
    ensures |r| <= |s|
    ensures c !in s ==> r == s
    ensures forall x :: x != c ==> (x in r <==> x in s)
  {
    if s == [] then [] else (if s[0] == c then [] else [s[0]]) + Without(s[1..], c)
  }

  /** Removing a character from a concatenation removes it from each part. */
  lemma {:induction false} WithoutAppend(a: string, b: string, c: char)
    ensures Without(a + b, c) == Without(a, c) + Without(b, c)
  {
    if a == [] {
      assert a + b == b;
    } else {
      assert (a + b)[0] == a[0];
      assert (a + b)[1..] == a[1..] + b;
      WithoutAppend(a[1..], b, c);
    }
  }

  function UpperChar(c: char): char {
    if 'a' <= c <= 'z' then (c as int - 'a' as int + 'A' as int) as char else c
  }

  /** `s.toUpperCase()` on the characters `Number.prototype.toString(36)` produces
      (digits and lower-case ASCII letters); other characters are kept. */
  function Upper(s: string): (r: string)
    ensures |r| == |s|
    ensures forall i :: 0 <= i < |r| ==> !('a' <= r[i] <= 'z')
    ensures forall i :: 0 <= i < |r| ==> r[i] == UpperChar(s[i])
  {
    seq(|s|, i requires 0 <= i < |s| => UpperChar(s[i]))
  }

  predicate IsDigit(c: char) {
    '0' <= c <= '9'
  }

  predicate AllDigits(s: string) {
    forall i :: 0 <= i < |s| ==> IsDigit(s[i])
  }

  function DigitChar(d: nat): (c: char)
    requires d < 10
    ensures IsDigit(c)
  {
    ('0' as int + d) as char
  }

  /** `String(n)` for a non-negative integer: its shortest decimal spelling. */
  function Decimal(n: nat): (r: string)
    ensures |r| > 0 && AllDigits(r)
    ensures n > 0 ==> r[0] != '0'
  {
    if n < 10 then [DigitChar(n)] else Decimal(n / 10) + [DigitChar(n % 10)]
  }

  /** The ids the edit dialogs generate: `<prefix><timestamp>_<random>`, the random part
      being characters 2 to 7 of `Math.random().toString(36)`. The timestamp reads back from
      the digits after the prefix, and a `_` ends them. */
  function GeneratedId(prefix: string, timestamp: nat, random36: string): (id: string)
    ensures StartsWith(id, prefix)
    ensures var n := |Decimal(timestamp)|;
      && |prefix| + n + 1 <= |id| <= |prefix| + n + 7
      && AllDigits(id[|prefix|..|prefix| + n])
      && DecimalValue(id[|prefix|..|prefix| + n]) == timestamp
      && id[|prefix| + n] == '_'
  {
    var digits := Decimal(timestamp);
    var id := prefix + digits + "_" + Slice(random36, 2, 8);
    assert id[|prefix|..|prefix| + |digits|] == digits;
    DecimalRoundTrip(timestamp);
    id
  }

  /** The value of a string of decimal digits. */
  function DecimalValue(s: string): nat
    requires AllDigits(s)
  {
    if s == [] then 0 else 10 * DecimalValue(s[..|s| - 1]) + (s[|s| - 1] as int - '0' as int)
  }

  /** Reading back what `Decimal` wrote gives the number. */
  lemma {:induction false} DecimalRoundTrip(n: nat)
    ensures DecimalValue(Decimal(n)) == n
  {
    if n >= 10 {
      var r := Decimal(n);
      assert r[..|r| - 1] == Decimal(n / 10);
      DecimalRoundTrip(n / 10);
    }
  }

  /** `String(i)` for an integer: a minus sign before the magnitude when negative. */
  function IntString(i: int): (r: string)
    ensures |r| > 0
    ensures i >= 0 <==> r[0] != '-'
  {
    if i < 0 then "-" + Decimal(-i) else Decimal(i)
  }

  /** `parts.join(sep)`. */
  function Join(parts: seq<string>, sep: string): (r: string)
    ensures |parts| == 1 ==> r == parts[0]
    ensures |parts| == 0 ==> r == []
  {
    if |parts| == 0 then [] else if |parts| == 1 then parts[0] else parts[0] + sep + Join(parts[1..], sep)
  }

  /** Joining appends one more part after a separator. */
  lemma {:induction false} JoinSnoc(parts: seq<string>, last: string, sep: string)
    requires |parts| > 0
    ensures Join(parts + [last], sep) == Join(parts, sep) + sep + last
    decreases |parts|
  {
    if |parts| == 1 {
      assert (parts + [last])[1..] == [last];
    } else {
      assert (parts + [last])[1..] == parts[1..] + [last];
      JoinSnoc(parts[1..], last, sep);
    }
  }
}
