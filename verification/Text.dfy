/**
 Characters, decimal numerals, lines and the one string-escaping law.

 A Rust `String` is a sequence of Unicode scalar values, which is what `char` is here; its
 length in bytes is `Bytes`. The escaping law is written three times in the repository (the
 ledger row, the JSON writer, the canonical protocol form) with the same result, so it is
 defined once.
 */
module Text {
  import opened Wrappers

  // ---------- UTF-8 lengths ----------

  function Utf8Width(c: char): (n: nat)
    ensures 1 <= n <= 4
  {
    if c as int < 0x80 then 1 else if c as int < 0x800 then 2 else if c as int < 0x1_0000 then 3 else 4
  }

  /** `str::len`: the number of bytes of the UTF-8 form. */
  function Bytes(s: string): (n: nat)
    ensures |s| <= n <= 4 * |s|
  {
    if s == [] then 0 else Utf8Width(s[0]) + Bytes(s[1..])
  }

  lemma {:induction false} BytesAppend(a: string, b: string)
    ensures Bytes(a + b) == Bytes(a) + Bytes(b)
  {
    if a == [] {
      assert a + b == b;
    } else {
      assert (a + b)[1..] == a[1..] + b;
      BytesAppend(a[1..], b);
    }
  }

  ghost predicate Ascii(s: string) {
    forall i :: 0 <= i < |s| ==> s[i] as int < 0x80
  }

  lemma {:induction false} AsciiBytes(s: string)
    requires Ascii(s)
    ensures Bytes(s) == |s|
  {
    if s != [] {
      AsciiBytes(s[1..]);
    }
  }

  // ---------- decimal numerals ----------

  predicate IsDigit(c: char) {
    '0' <= c <= '9'
  }

  function DigitChar(d: nat): (c: char)
    requires d < 10
    ensures IsDigit(c) && DigitOf(c) == d
  {
    ('0' as int + d) as char
  }

  function DigitOf(c: char): nat
    requires IsDigit(c)
  {
    c as int - '0' as int
  }

  ghost predicate AllDigits(s: string) {
    forall i :: 0 <= i < |s| ==> IsDigit(s[i])
  }

  /** The shortest decimal form of `n`: what `to_string` and `{}` print for an unsigned integer. */
  function Dec(n: nat): (s: string)
    ensures s != [] && AllDigits(s)
    ensures |s| > 1 ==> s[0] != '0'
    ensures n > 0 ==> s[0] != '0'
    ensures DecValue(s) == n
  {
    if n < 10 then [DigitChar(n)] else
      var init := Dec(n / 10);
      assert (init + [DigitChar(n % 10)])[..|init|] == init;
      init + [DigitChar(n % 10)]
  }

  function DecValue(s: string): nat
    requires AllDigits(s)
  {
    if s == [] then 0 else 10 * DecValue(s[..|s| - 1]) + DigitOf(s[|s| - 1])
  }

  function Pow10(k: nat): (p: nat)
    ensures p >= 1
  {
    if k == 0 then 1 else 10 * Pow10(k - 1)
  }

  lemma {:induction false} DecLength(n: nat, k: nat)
    requires k >= 1 && n < Pow10(k)
    ensures |Dec(n)| <= k
  {
    if n >= 10 {
      assert k > 1;
      DecLength(n / 10, k - 1);
    }
  }

  const U64_LIMIT: nat := 0x1_0000_0000_0000_0000

  lemma U64Digits(n: nat)
    requires n < U64_LIMIT
    ensures |Dec(n)| <= 20
  {
    assert Pow10(20) == 100_000_000_000_000_000_000 by {
      assert Pow10(5) == 100_000;
      assert Pow10(10) == 10_000_000_000;
      assert Pow10(15) == 1_000_000_000_000_000;
    }
    DecLength(n, 20);
  }

  // ---------- searching ----------

  /** `pat` occurs in `s` at index `i`. */
  ghost predicate At(s: string, i: int, pat: string) {
    0 <= i && i + |pat| <= |s| && s[i..i + |pat|] == pat
  }

  lemma AtParts(s: string, i: int, a: string, b: string)
    requires At(s, i, a + b)
    ensures At(s, i, a) && At(s, i + |a|, b)
  {
    var w := s[i..i + |a + b|];
    assert s[i..i + |a|] == w[..|a|] == a;
    assert s[i + |a|..i + |a| + |b|] == w[|a|..] == b;
  }

  /** `str::matches(pat).count()`: occurrences left to right, none overlapping. */
  function CountMatches(s: string, pat: string): nat
    requires pat != []
    decreases |s|
  {
    if |s| < |pat| then 0
    else if pat <= s then 1 + CountMatches(s[|pat|..], pat)
    else CountMatches(s[1..], pat)
  }

  /** `str::find(pat)`. */
  function Find(s: string, pat: string): (r: Option<nat>)
    requires pat != []
    ensures r.Some? ==> r.value + |pat| <= |s|
    decreases |s|
  {
    if |s| < |pat| then None
    else if pat <= s then Some(0)
    else
      match Find(s[1..], pat)
      case None => None
      case Some(k) => Some(k + 1)
  }

  lemma {:induction false} NoMatch(s: string, pat: string)
    requires pat != []
    requires forall i :: !At(s, i, pat)
    ensures CountMatches(s, pat) == 0
    decreases |s|
  {
    if |s| >= |pat| {
      assert !At(s, 0, pat);
      forall i ensures !At(s[1..], i, pat) {
        if At(s[1..], i, pat) {
          assert s[1..][i..i + |pat|] == s[i + 1..i + 1 + |pat|];
          assert At(s, i + 1, pat);
        }
      }
      NoMatch(s[1..], pat);
    }
  }

  /** A pattern that occurs at exactly one index is counted once and found there. */
  lemma {:induction false} OneMatch(s: string, pat: string, p: nat)
    requires pat != []
    requires At(s, p, pat)
    requires forall i :: At(s, i, pat) ==> i == p
    ensures CountMatches(s, pat) == 1
    ensures Find(s, pat) == Some(p)
    decreases |s|
  {
    if p == 0 {
      assert s[0..|pat|] == pat;
      forall i ensures !At(s[|pat|..], i, pat) {
        if At(s[|pat|..], i, pat) {
          assert s[|pat|..][i..i + |pat|] == s[i + |pat|..i + |pat| + |pat|];
          assert At(s, i + |pat|, pat);
        }
      }
      NoMatch(s[|pat|..], pat);
    } else {
      assert !At(s, 0, pat);
      assert s[1..][p - 1..p - 1 + |pat|] == s[p..p + |pat|];
      forall i | At(s[1..], i, pat) ensures i == p - 1 {
        assert s[1..][i..i + |pat|] == s[i + 1..i + 1 + |pat|];
        assert At(s, i + 1, pat);
      }
      OneMatch(s[1..], pat, p - 1);
    }
  }

  // ---------- lines and trimming ----------

  /** Index of the first newline, or `|s|` when there is none. */
  function NewlineAt(s: string): (k: nat)
    ensures k <= |s|
    ensures k < |s| ==> s[k] == '\n'
    ensures forall i :: 0 <= i < k ==> s[i] != '\n'
  {
    if s == [] then 0 else if s[0] == '\n' then 0 else 1 + NewlineAt(s[1..])
  }

  lemma FirstNewline(s: string, k: nat)
    requires k < |s| && s[k] == '\n'
    requires forall i :: 0 <= i < k ==> s[i] != '\n'
    ensures NewlineAt(s) == k
  {
  }

  function StripCr(s: string): string {
    if s != [] && s[|s| - 1] == '\r' then s[..|s| - 1] else s
  }

  /** `str::lines`: a line feed, or a carriage return and a line feed, ends a line. */
  function Lines(s: string): seq<string>
    decreases |s|
  {
    if s == [] then []
    else
      var k := NewlineAt(s);
      if k == |s| then [s] else [StripCr(s[..k])] + Lines(s[k + 1..])
  }

  /** The text is empty or its last character ends a line. */
  predicate Terminated(s: string) {
    s == [] || s[|s| - 1] == '\n'
  }

  lemma LinesStep(s: string)
    requires NewlineAt(s) < |s|
    ensures Lines(s) == [StripCr(s[..NewlineAt(s)])] + Lines(s[NewlineAt(s) + 1..])
  {
    hide NewlineAt, StripCr;
  }

  lemma NoLines()
    ensures Lines("") == []
  {
  }

  lemma TerminatedStep(a: string)
    requires Terminated(a) && a != []
    ensures NewlineAt(a) < |a| && Terminated(a[NewlineAt(a) + 1..])
  {
    hide Lines;
  }

  lemma {:induction false} LinesAppend(a: string, b: string)
    requires Terminated(a)
    ensures Lines(a + b) == Lines(a) + Lines(b)
    decreases |a|
  {
    hide Lines, NewlineAt, StripCr, Terminated;
    if a == [] {
      NoLines();
      assert a + b == b && [] + Lines(b) == Lines(b);
    } else {
      TerminatedStep(a);
      var k := NewlineAt(a);
      FirstNewline(a + b, k);
      var first, rest := [StripCr(a[..k])], a[k + 1..];
      assert (a + b)[..k] == a[..k] && (a + b)[k + 1..] == rest + b;
      LinesStep(a);
      LinesStep(a + b);
      LinesAppend(rest, b);
      assert first + (Lines(rest) + Lines(b)) == (first + Lines(rest)) + Lines(b);
    }
  }

  /** One complete row holding a single newline reads back as one line. */
  lemma OneLine(row: string)
    requires forall i :: 0 <= i < |row| ==> row[i] != '\n' && row[i] != '\r'
    ensures Lines(row + "\n") == [row]
  {
    hide Lines, NewlineAt;
    var t := row + "\n";
    FirstNewline(t, |row|);
    assert t[..|row|] == row && t[|row| + 1..] == [];
    NoLines();
    LinesStep(t);
  }

  /** `char::is_whitespace`. */
  predicate IsSpace(c: char) {
    var n := c as int;
    || 0x09 <= n <= 0x0D || n == 0x20 || n == 0x85 || n == 0xA0 || n == 0x1680
    || 0x2000 <= n <= 0x200A || n == 0x2028 || n == 0x2029 || n == 0x202F || n == 0x205F || n == 0x3000
  }

  function TrimStart(s: string): string {
    if s != [] && IsSpace(s[0]) then TrimStart(s[1..]) else s
  }

  function TrimEnd(s: string): string {
    if s != [] && IsSpace(s[|s| - 1]) then TrimEnd(s[..|s| - 1]) else s
  }

  /** `str::trim`. */
  function Trim(s: string): string {
    TrimEnd(TrimStart(s))
  }

  // ---------- lexicographic order ----------

  /** `a <= b` in the order of `str`: UTF-8 keeps the order of scalar values. */
  predicate StrLe(a: string, b: string) {
    a == [] || (b != [] && (a[0] < b[0] || (a[0] == b[0] && StrLe(a[1..], b[1..]))))
  }

  lemma {:induction false} StrLeTotal(a: string, b: string)
    ensures StrLe(a, b) || StrLe(b, a)
    ensures StrLe(a, b) && StrLe(b, a) ==> a == b
  {
    if a != [] && b != [] && a[0] == b[0] {
      StrLeTotal(a[1..], b[1..]);
      assert a == [a[0]] + a[1..] && b == [b[0]] + b[1..];
    }
  }

  lemma {:induction false} StrLeTransitive(a: string, b: string, c: string)
    requires StrLe(a, b) && StrLe(b, c)
    ensures StrLe(a, c)
  {
    if a != [] && a[0] == b[0] && b[0] == c[0] {
      StrLeTransitive(a[1..], b[1..], c[1..]);
    }
  }

  // ---------- the escaping law ----------

  function HexDigit(d: nat): (c: char)
    requires d < 16
    ensures HexValue(c) == Some(d)
  {
    if d < 10 then ('0' as int + d) as char else ('a' as int + d - 10) as char
  }

  /** `char::to_digit(16)`. */
  function HexValue(c: char): (r: Option<nat>)
    ensures r.Some? ==> r.value < 16
  {
    if '0' <= c <= '9' then Some(c as int - '0' as int)
    else if 'a' <= c <= 'f' then Some(c as int - 'a' as int + 10)
    else if 'A' <= c <= 'F' then Some(c as int - 'A' as int + 10)
    else None
  }

  const BACKSPACE: char := 8 as char
  const FORM_FEED: char := 12 as char

  function EscapedChar(c: char): (e: string)
    ensures e != []
    ensures e == [c] || e[0] == '\\'
    ensures |e| <= 6
  {
    if c == '"' then "\\\""
    else if c == '\\' then "\\\\"
    else if c == '\n' then "\\n"
    else if c == '\r' then "\\r"
    else if c == '\t' then "\\t"
    else if c == BACKSPACE then "\\b"
    else if c == FORM_FEED then "\\f"
    else if c as int < 0x20 then "\\u00" + [HexDigit(c as int / 16), HexDigit(c as int % 16)]
    else [c]
  }

  function Escaped(s: string): string {
    if s == [] then [] else EscapedChar(s[0]) + Escaped(s[1..])
  }

  lemma {:induction false} EscapedAppend(a: string, b: string)
    ensures Escaped(a + b) == Escaped(a) + Escaped(b)
  {
    if a == [] {
      assert a + b == b;
    } else {
      assert (a + b)[1..] == a[1..] + b;
      EscapedAppend(a[1..], b);
    }
  }

  lemma EscapedSnoc(s: string, c: char)
    ensures Escaped(s + [c]) == Escaped(s) + EscapedChar(c)
  {
    EscapedAppend(s, [c]);
    assert Escaped([c]) == EscapedChar(c) + Escaped([]);
  }

  ghost predicate Printable(s: string) {
    forall i :: 0 <= i < |s| ==> s[i] as int >= 0x20
  }

  /** A quote at `i`, if there is one, stands behind a backslash. */
  ghost predicate QuoteGuarded(s: string, i: int) {
    0 <= i < |s| && s[i] == '"' ==> i > 0 && s[i - 1] == '\\'
  }

  /** No control character survives escaping, and a quote survives only behind a backslash. */
  ghost predicate Framed(e: string) {
    Printable(e) && forall i :: QuoteGuarded(e, i)
  }

  lemma {:induction false} EscapedFramed(s: string)
    ensures Framed(Escaped(s))
  {
    if s != [] {
      var h, t := EscapedChar(s[0]), Escaped(s[1..]);
      EscapedFramed(s[1..]);
      assert Framed(h);
      forall i ensures QuoteGuarded(h + t, i) {
        assert QuoteGuarded(h, i) && QuoteGuarded(t, i - |h|);
      }
    }
  }

  /** No character of the text is escaped by the writer. */
  predicate Plain(s: string) {
    forall i :: 0 <= i < |s| ==> ' ' <= s[i] && s[i] != '"' && s[i] != '\\'
  }

  lemma {:induction false} PlainEscaped(s: string)
    requires Plain(s)
    ensures Escaped(s) == s
  {
    if s != [] {
      PlainEscaped(s[1..]);
      assert s == [s[0]] + s[1..];
    }
  }
}
