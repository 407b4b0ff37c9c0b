/**
 The grammar of crates/caddis-deliberate/src/json.rs as a relation between a stretch of text and a value,
 and the parser as its decision procedure: it accepts exactly the texts the grammar has, with the value
 the grammar gives them.
 */
module JsonGrammar {
  import opened Wrappers
  import opened Text
  import opened Decimals
  import opened Json

  // ---------- blanks and words ----------

  predicate Space(c: char) {
    c == ' ' || c == '\t' || c == '\n' || c == '\r'
  }

  ghost predicate Blank(b: string, i: nat, j: nat) {
    i <= j <= |b| && forall k :: i <= k < j ==> Space(b[k])
  }

  ghost predicate Spells(b: string, i: nat, j: nat, w: string) {
    i <= j <= |b| && b[i..j] == w
  }

  lemma {:induction false} SkipsBlank(b: string, i: nat)
    requires i <= |b|
    ensures Blank(b, i, SkipWs(b, i))
    ensures SkipWs(b, i) < |b| ==> !Space(b[SkipWs(b, i)])
    decreases |b| - i
  {
    if i < |b| && Space(b[i]) {
      SkipsBlank(b, i + 1);
    }
  }

  lemma {:induction false} BlankSkipped(b: string, i: nat, j: nat)
    requires Blank(b, i, j) && (j < |b| ==> !Space(b[j]))
    ensures SkipWs(b, i) == j
    decreases j - i
  {
    if i < j {
      BlankSkipped(b, i + 1, j);
    }
  }

  // ---------- strings ----------

  /** What one character after the backslash stands for. */
  predicate Stands(e: char, c: char) {
    || (e == '"' && c == '"') || (e == '\\' && c == '\\') || (e == '/' && c == '/')
    || (e == 'b' && c as int == 8) || (e == 'f' && c as int == 12) || (e == 'n' && c as int == 10)
    || (e == 'r' && c as int == 13) || (e == 't' && c as int == 9)
  }

  function Nibble(c: char): int {
    if '0' <= c <= '9' then c as int - 48
    else if 'a' <= c <= 'f' then c as int - 87
    else if 'A' <= c <= 'F' then c as int - 55
    else -1
  }

  /** The number of four hexadecimal digits, either case; negative when they are not there. */
  ghost function HexNumber(b: string, i: nat): int {
    if i + 4 > |b| then -1
    else
      var d1, d2, d3, d4 := Nibble(b[i]), Nibble(b[i + 1]), Nibble(b[i + 2]), Nibble(b[i + 3]);
      if d1 < 0 || d2 < 0 || d3 < 0 || d4 < 0 then -1 else 4096 * d1 + 256 * d2 + 16 * d3 + d4
  }

  /** One unit outside the surrogates. */
  ghost predicate Unit(b: string, i: nat, c: char) {
    && i + 2 <= |b| && b[i] == '\\' && b[i + 1] == 'u' && HexNumber(b, i + 2) == c as int
  }

  /** Two surrogates with exactly one single-byte character between them. */
  ghost predicate Pair(b: string, i: nat, c: char) {
    && i + 13 <= |b| && b[i] == '\\' && b[i + 1] == 'u' && b[i + 6] as int < 0x80
    && b[i + 7] == '\\' && b[i + 8] == 'u'
    && var hi, lo := HexNumber(b, i + 2), HexNumber(b, i + 9);
    && 0xD800 <= hi <= 0xDBFF && 0xDC00 <= lo <= 0xDFFF
    && c as int == 0x1_0000 + (hi - 0xD800) * 0x400 + (lo - 0xDC00)
  }

  /** The stretch spells one character of a string. */
  ghost predicate OneChar(b: string, i: nat, j: nat, c: char) {
    && i < j <= |b|
    && (|| (j == i + 1 && b[i] == c && c != '"' && c != '\\' && c as int >= 0x20)
        || (j == i + 2 && b[i] == '\\' && Stands(b[i + 1], c))
        || (j == i + 6 && Unit(b, i, c))
        || (j == i + 13 && Pair(b, i, c)))
  }

  ghost predicate Chars(b: string, i: nat, j: nat, s: string)
    decreases |s|
  {
    && i <= j <= |b|
    && (s == [] ==> i == j)
    && (s != [] ==> exists m: nat :: i < m <= j && OneChar(b, i, m, s[0]) && Chars(b, m, j, s[1..]))
  }

  ghost predicate Quoted(b: string, i: nat, j: nat, s: string) {
    i + 1 < j <= |b| && b[i] == '"' && b[j - 1] == '"' && Chars(b, i + 1, j - 1, s)
  }

  lemma NibbleIs(c: char)
    ensures HexValue(c) == if Nibble(c) < 0 then None else Some(Nibble(c))
  {
  }

  lemma HexStep(b: string, i: nat, n: nat, v: nat)
    requires i + n <= |b| && 0 < n <= 4
    ensures Nibble(b[i]) < 0 ==> ParseHex(b, i, n, v).Err?
    ensures Nibble(b[i]) >= 0 ==> ParseHex(b, i, n, v) == ParseHex(b, i + 1, n - 1, v * 16 + Nibble(b[i]))
  {
    NibbleIs(b[i]);
    hide HexValue, Nibble;
  }

  lemma HexReads(b: string, i: nat)
    requires i < |b|
    ensures HexNumber(b, i + 1) < 0 ==> ParseHex4(b, i).Err?
    ensures HexNumber(b, i + 1) >= 0 ==> ParseHex4(b, i) == Ok(Parsed(HexNumber(b, i + 1), i + 5))
  {
    hide HexValue, Nibble;
    if i + 5 <= |b| {
      var d1, d2, d3, d4 := Nibble(b[i + 1]), Nibble(b[i + 2]), Nibble(b[i + 3]), Nibble(b[i + 4]);
      HexStep(b, i + 1, 4, 0);
      if d1 >= 0 {
        HexStep(b, i + 2, 3, d1);
        if d2 >= 0 {
          HexStep(b, i + 3, 2, d1 * 16 + d2);
          if d3 >= 0 {
            HexStep(b, i + 4, 1, (d1 * 16 + d2) * 16 + d3);
          }
        }
      }
    }
  }

  lemma UnicodeReads(b: string, i: nat, j: nat, c: char)
    requires i + 1 < |b| && b[i] == '\\' && b[i + 1] == 'u'
    ensures ParseUnicode(b, i + 1) == Ok(Parsed(c, j)) <==>
      (j == i + 6 && Unit(b, i, c)) || (j == i + 13 && Pair(b, i, c))
  {
    hide ParseHex4, HexNumber;
    HexReads(b, i + 1);
    if i + 8 < |b| {
      HexReads(b, i + 8);
    }
  }

  /** After a backslash the parser finds exactly the escapes of the grammar. */
  lemma EscapeReads(b: string, i: nat, j: nat, c: char)
    requires i < |b| && b[i] == '\\'
    ensures ParseEscape(b, i + 1) == Ok(Parsed(c, j)) <==> OneChar(b, i, j, c)
  {
    if i + 1 < |b| && b[i + 1] == 'u' {
      UnicodeReads(b, i, j, c);
    }
    hide ParseUnicode, Pair, HexNumber;
  }

  lemma {:induction false} CharsFound(b: string, i: nat, out: string) returns (s: string)
    requires i <= |b| && ParseChars(b, i, out).Ok?
    ensures var r := ParseChars(b, i, out).value;
      r.value == out + s && b[r.next - 1] == '"' && Chars(b, i, r.next - 1, s)
    decreases |b| - i
  {
    hide ParseEscape, OneChar;
    if b[i] == '"' {
      s := [];
    } else if b[i] == '\\' {
      var c := ParseEscape(b, i + 1).value;
      EscapeReads(b, i, c.next, c.value);
      var t := CharsFound(b, c.next, out + [c.value]);
      s := [c.value] + t;
      assert s[1..] == t && out + [c.value] + t == out + s;
    } else {
      var t := CharsFound(b, i + 1, out + [b[i]]);
      s := [b[i]] + t;
      assert OneChar(b, i, i + 1, b[i]) by {
        RawChar(b, i);
      }
      assert s[1..] == t && out + [b[i]] + t == out + s;
    }
  }

  lemma RawChar(b: string, i: nat)
    requires i < |b| && b[i] != '"' && b[i] != '\\' && b[i] as int >= 0x20
    ensures OneChar(b, i, i + 1, b[i])
  {
  }

  lemma OneStep(b: string, i: nat, j: nat, c: char, out: string)
    requires OneChar(b, i, j, c)
    ensures ParseChars(b, i, out) == ParseChars(b, j, out + [c])
  {
    if b[i] == '\\' {
      EscapeReads(b, i, j, c);
    }
    hide ParseEscape, Pair, HexNumber, Stands;
  }

  lemma {:induction false} CharsRead(b: string, i: nat, j: nat, s: string, out: string)
    requires Chars(b, i, j, s) && j < |b| && b[j] == '"'
    ensures ParseChars(b, i, out) == Ok(Parsed(out + s, j + 1))
    decreases |s|
  {
    if s == [] {
      assert out + s == out;
    } else {
      var m: nat :| i < m <= j && OneChar(b, i, m, s[0]) && Chars(b, m, j, s[1..]);
      OneStep(b, i, m, s[0], out);
      CharsRead(b, m, j, s[1..], out + [s[0]]);
      assert out + [s[0]] + s[1..] == out + s;
    }
  }

  // ---------- numbers ----------

  ghost predicate Digits(b: string, i: nat, j: nat) {
    i <= j <= |b| && forall k :: i <= k < j ==> IsDigit(b[k])
  }

  /** `x` is the whole number times ten to the `e`. */
  ghost predicate Times(x: real, whole: nat, e: int) {
    if e >= 0 then x == (whole * Pow10(e)) as real else x * (Pow10(-e) as real) == whole as real
  }

  /** An exponent: none, or a letter, a sign if any, and digits. */
  ghost predicate Exponent(b: string, i: nat, j: nat, e: int) {
    && i <= j <= |b|
    && (|| (j == i && e == 0)
        || (i + 1 < j && (b[i] == 'e' || b[i] == 'E') && Digits(b, i + 1, j) && e == DecValue(b[i + 1..j]))
        || (i + 2 < j && (b[i] == 'e' || b[i] == 'E') && b[i + 1] == '+' && Digits(b, i + 2, j)
            && e == DecValue(b[i + 2..j]))
        || (i + 2 < j && (b[i] == 'e' || b[i] == 'E') && b[i + 1] == '-' && Digits(b, i + 2, j)
            && e == 0 - DecValue(b[i + 2..j])))
  }

  /** The fraction digits between the point and `m`, none when there is no point. */
  ghost function FracText(b: string, k: nat, m: nat): string
    requires k <= m <= |b|
  {
    if m == k then "" else b[k + 1..m]
  }

  /** Digits without a needless zero before them, up to `k`; a point and digits, up to `m`; an exponent. */
  ghost predicate Parts(b: string, i: nat, j: nat, n: real, k: nat, m: nat, e: int) {
    && i < j <= |b|
    && var w := if b[i] == '-' then i + 1 else i;
    && w < k && Digits(b, w, k) && (k - w > 1 ==> b[w] != '0')
    && (m == k || (k < m <= |b| && b[k] == '.' && Digits(b, k + 1, m)))
    && Exponent(b, m, j, e)
    && var frac := FracText(b, k, m);
    && AllDigits(b[w..k] + frac)
    && Times(if b[i] == '-' then -n else n, DecValue(b[w..k] + frac), e - |frac|)
  }

  ghost predicate Numeral(b: string, i: nat, j: nat, n: real) {
    exists k: nat, m: nat, e: int :: Parts(b, i, j, n, k, m, e)
  }

  /** Where a value ends in a document: at its end, or before a blank or a mark. */
  ghost predicate Ends(b: string, j: nat) {
    j == |b| || (j < |b| && (Space(b[j]) || b[j] == ',' || b[j] == ']' || b[j] == '}'))
  }

  lemma {:induction false} SkipsDigits(b: string, i: nat)
    requires i <= |b|
    ensures Digits(b, i, SkipDigits(b, i))
    decreases |b| - i
  {
    if i < |b| && IsDigit(b[i]) {
      SkipsDigits(b, i + 1);
    }
  }

  lemma {:induction false} DigitsSkipped(b: string, i: nat, j: nat)
    requires Digits(b, i, j) && (j < |b| ==> !IsDigit(b[j]))
    ensures SkipDigits(b, i) == j
    decreases j - i
  {
    if i < j {
      DigitsSkipped(b, i + 1, j);
    }
  }

  lemma {:induction false} ShiftedTimes(x: real, k: nat)
    ensures Shifted(x, k) == x * (Pow10(k) as real)
    decreases k
  {
    if k > 0 {
      ShiftedTimes(10.0 * x, k - 1);
      Regrouped(x, Pow10(k - 1) as real);
    }
  }

  lemma Regrouped(x: real, p: real)
    ensures (10.0 * x) * p == x * (10.0 * p)
  {
  }

  /** Moving the point is multiplying. */
  lemma ScaledTimes(x: real, whole: nat, e: int)
    ensures x == Scaled(whole as real, e) <==> Times(x, whole, e)
  {
    hide Pow10, Shifted, Unshifted;
    if e >= 0 {
      ShiftedPlus(0.0, whole, e);
      ShiftedNothing(e);
    } else {
      var k: nat, w := -e, whole as real;
      ShiftedTimes(x, k);
      ShiftedBack(x, k);
      UnshiftedBack(w, k);
      assert Times(x, whole, e) <==> Shifted(x, k) == w;
      if Shifted(x, k) == w {
        assert x == Unshifted(w, k);
      }
    }
  }

  lemma ExponentFound(b: string, m: nat, start: nat)
    requires m <= |b| && ParseExponent(b, m, start).Ok?
    ensures var r := ParseExponent(b, m, start).value; Exponent(b, m, r.next, r.value)
  {
    hide SkipDigits, DecValue;
    if Peek(b, m, 'e') || Peek(b, m, 'E') {
      var x := if Peek(b, m + 1, '+') || Peek(b, m + 1, '-') then m + 2 else m + 1;
      SkipsDigits(b, x);
    }
  }

  lemma ExponentRead(b: string, m: nat, j: nat, e: int, start: nat)
    requires Exponent(b, m, j, e) && Ends(b, j)
    ensures ParseExponent(b, m, start) == Ok(Parsed(e, j))
  {
    hide SkipDigits, DecValue;
    if j > m {
      var x := if Peek(b, m + 1, '+') || Peek(b, m + 1, '-') then m + 2 else m + 1;
      DigitsSkipped(b, x, j);
    }
  }

  lemma Valued(neg: bool, whole: string, frac: string, e: int, n: real)
    requires AllDigits(whole) && AllDigits(frac)
    ensures AllDigits(whole + frac)
    ensures NumberValue(neg, whole, frac, e) == n
      <==> Times(if neg then -n else n, DecValue(whole + frac), e - |frac|)
  {
    hide DecValue, Scaled, Times;
    ScaledTimes(if neg then -n else n, DecValue(whole + frac), e - |frac|);
  }

  /** What the parser makes of a number once its digits and its point are found. */
  lemma NumberMade(b: string, i: nat, w: nat, k: nat, m: nat)
    requires i < |b| && (b[i] == '-' || IsDigit(b[i])) && w == if b[i] == '-' then i + 1 else i
    requires k == SkipDigits(b, w) && m == if Peek(b, k, '.') then SkipDigits(b, k + 1) else k
    ensures AllDigits(b[w..k]) && k <= m && AllDigits(FracText(b, k, m))
    ensures ParseNumber(b, i).Ok? <==> w < k && !(k - w > 1 && b[w] == '0') && ParseExponent(b, m, i).Ok?
    ensures ParseNumber(b, i).Ok? ==>
      var exp := ParseExponent(b, m, i).value;
      ParseNumber(b, i).value == Parsed(Num(NumberValue(b[i] == '-', b[w..k], FracText(b, k, m), exp.value)), exp.next)
  {
    hide SkipDigits, ParseExponent, NumberValue;
  }

  lemma NumberFound(b: string, i: nat)
    requires i < |b| && (b[i] == '-' || IsDigit(b[i])) && ParseNumber(b, i).Ok?
    ensures var r := ParseNumber(b, i).value; r.value.Num? && Numeral(b, i, r.next, r.value.n)
  {
    hide SkipDigits, ParseExponent, Exponent, NumberValue, DecValue, Times, ParseNumber, IsDigit;
    var w := if b[i] == '-' then i + 1 else i;
    var k := SkipDigits(b, w);
    SkipsDigits(b, w);
    var m := if Peek(b, k, '.') then SkipDigits(b, k + 1) else k;
    if Peek(b, k, '.') {
      SkipsDigits(b, k + 1);
    }
    NumberMade(b, i, w, k, m);
    ExponentFound(b, m, i);
    var exp := ParseExponent(b, m, i).value;
    var n := ParseNumber(b, i).value.value.n;
    Valued(b[i] == '-', b[w..k], FracText(b, k, m), exp.value, n);
    assert Parts(b, i, exp.next, n, k, m, exp.value);
  }

  lemma NumberRead(b: string, i: nat, j: nat, n: Decimal)
    requires Numeral(b, i, j, n) && Ends(b, j)
    ensures (b[i] == '-' || IsDigit(b[i])) && ParseNumber(b, i) == Ok(Parsed(Num(n), j))
  {
    hide SkipDigits, ParseExponent, Exponent, NumberValue, DecValue, Times, ParseNumber, IsDigit;
    var k: nat, m: nat, e: int :| Parts(b, i, j, n, k, m, e);
    var w := if b[i] == '-' then i + 1 else i;
    NumberStops(b, i, j, n, k, m, e);
    NumberMade(b, i, w, k, m);
    ExponentRead(b, m, j, e, i);
    Valued(b[i] == '-', b[w..k], FracText(b, k, m), e, n);
  }

  lemma NumberStops(b: string, i: nat, j: nat, n: Decimal, k: nat, m: nat, e: int)
    requires Parts(b, i, j, n, k, m, e) && Ends(b, j)
    ensures b[i] == '-' || IsDigit(b[i])
    ensures SkipDigits(b, if b[i] == '-' then i + 1 else i) == k
    ensures Peek(b, k, '.') <==> m > k
    ensures m > k ==> SkipDigits(b, k + 1) == m
  {
    hide SkipDigits, DecValue, Times;
    assert m < |b| ==> !IsDigit(b[m]) && b[m] != '.';
    DigitsSkipped(b, if b[i] == '-' then i + 1 else i, k);
    if m > k {
      DigitsSkipped(b, k + 1, m);
    }
  }

  // ---------- values ----------

  /** The stretch spells the value, `depth` containers deep. */
  ghost predicate Val(b: string, i: nat, j: nat, v: Value, depth: nat)
    decreases v, 2
  {
    && depth <= 128 && i < j <= |b|
    && match v
       case Null => Spells(b, i, j, "null")
       case Bool(t) => Spells(b, i, j, if t then "true" else "false")
       case Num(n) => Numeral(b, i, j, n)
       case Str(s) => Quoted(b, i, j, s)
       case Arr(items) =>
         && i + 1 < j && b[i] == '[' && b[j - 1] == ']'
         && if items == [] then Blank(b, i + 1, j - 1) else Items(b, i + 1, j - 1, items, depth + 1)
       case Obj(ms) =>
         && i + 1 < j && b[i] == '{' && b[j - 1] == '}'
         && if ms == [] then Blank(b, i + 1, j - 1) else Members(b, i + 1, j - 1, ms, depth + 1)
  }

  /** Values with commas between them, and blanks around each. */
  ghost predicate Items(b: string, i: nat, j: nat, items: seq<Value>, depth: nat)
    requires items != []
    decreases items, 1
  {
    exists p: nat, q: nat, r: nat :: Item(b, i, j, items, depth, p, q, r)
  }

  ghost predicate Item(b: string, i: nat, j: nat, items: seq<Value>, depth: nat, p: nat, q: nat, r: nat)
    requires items != []
    decreases items, 0
  {
    && Blank(b, i, p) && Val(b, p, q, items[0], depth) && Blank(b, q, r) && r <= j <= |b|
    && if |items| == 1 then r == j else r < j && b[r] == ',' && Items(b, r + 1, j, items[1..], depth)
  }

  /** A quoted key, a colon and the start of the value, with blanks between. */
  ghost predicate Key(b: string, i: nat, j: nat, key: string) {
    exists p: nat, q: nat, r: nat :: KeyAt(b, i, j, key, p, q, r)
  }

  ghost predicate KeyAt(b: string, i: nat, j: nat, key: string, p: nat, q: nat, r: nat) {
    Blank(b, i, p) && Quoted(b, p, q, key) && Blank(b, q, r) && r < |b| && b[r] == ':' && Blank(b, r + 1, j)
  }

  ghost predicate Members(b: string, i: nat, j: nat, ms: seq<Member>, depth: nat)
    requires ms != []
    decreases ms, 1
  {
    exists p: nat, q: nat, r: nat :: Entry(b, i, j, ms, depth, p, q, r)
  }

  ghost predicate Entry(b: string, i: nat, j: nat, ms: seq<Member>, depth: nat, p: nat, q: nat, r: nat)
    requires ms != []
    decreases ms, 0
  {
    && Key(b, i, p, ms[0].key) && Val(b, p, q, ms[0].value, depth) && Blank(b, q, r) && r <= j <= |b|
    && if |ms| == 1 then r == j else r < j && b[r] == ',' && Members(b, r + 1, j, ms[1..], depth)
  }

  lemma WordFound(b: string, i: nat, word: string, v: Value)
    requires i < |b| && word != []
    ensures forall j: nat :: ParseWord(b, i, word, v) == Ok(Parsed(v, j)) <==> Spells(b, i, j, word)
  {
    if word <= b[i..] {
      assert b[i..][..|word|] == b[i..i + |word|];
    }
    forall j: nat | Spells(b, i, j, word) ensures j == i + |word| && word <= b[i..] {
      assert b[i..][..j - i] == b[i..j];
    }
  }

  lemma StringFound(b: string, i: nat)
    requires Peek(b, i, '"') && ParseString(b, i).Ok?
    ensures var r := ParseString(b, i).value; Quoted(b, i, r.next, r.value)
  {
    hide Chars;
    var s := CharsFound(b, i + 1, []);
    assert [] + s == s;
  }

  lemma StringRead(b: string, i: nat, j: nat, s: string)
    requires Quoted(b, i, j, s)
    ensures Peek(b, i, '"') && ParseString(b, i) == Ok(Parsed(s, j))
  {
    hide Chars;
    CharsRead(b, i + 1, j - 1, s, []);
    assert [] + s == s;
  }

  lemma KeyFound(b: string, i: nat)
    requires i <= |b| && ParseKey(b, i).Ok?
    ensures var r := ParseKey(b, i).value; Key(b, i, r.next, r.value)
  {
    hide SkipWs, ParseString, Quoted, Blank;
    var p := SkipWs(b, i);
    SkipsBlank(b, i);
    StringFound(b, p);
    var key := ParseString(b, p).value;
    SkipsBlank(b, key.next);
    var r := SkipWs(b, key.next);
    SkipsBlank(b, r + 1);
    assert KeyAt(b, i, SkipWs(b, r + 1), key.value, p, key.next, r);
  }

  lemma KeyRead(b: string, i: nat, j: nat, key: string)
    requires Key(b, i, j, key) && j < |b| && !Space(b[j])
    ensures i <= |b| && ParseKey(b, i) == Ok(Parsed(key, j))
  {
    var p: nat, q: nat, r: nat :| KeyAt(b, i, j, key, p, q, r);
    hide SkipWs, ParseString, Chars;
    BlankSkipped(b, i, p);
    StringRead(b, p, q, key);
    BlankSkipped(b, q, r);
    BlankSkipped(b, r + 1, j);
  }

  // ---------- what the parser accepts is in the grammar ----------

  lemma {:induction false} ValueFound(b: string, i: nat, depth: nat)
    requires i <= |b| && ParseValue(b, i, depth).Ok?
    ensures var r := ParseValue(b, i, depth).value; Val(b, i, r.next, r.value, depth)
    decreases |b| - i, 3
  {
    WordFound(b, i, "null", Null);
    WordFound(b, i, "true", Bool(true));
    WordFound(b, i, "false", Bool(false));
    hide ParseWord, ParseString, ParseArray, ParseObject, ParseNumber, Spells, Quoted, Numeral, Items, Members, Blank;
    if b[i] == '"' {
      StringFound(b, i);
    } else if b[i] == '[' {
      ArrayFound(b, i, depth);
    } else if b[i] == '{' {
      ObjectFound(b, i, depth);
    } else if b[i] == '-' || IsDigit(b[i]) {
      NumberFound(b, i);
    }
  }

  lemma {:induction false} ArrayFound(b: string, i: nat, depth: nat)
    requires Peek(b, i, '[') && depth <= 128 && ParseArray(b, i, depth).Ok?
    ensures var r := ParseArray(b, i, depth).value; Val(b, i, r.next, r.value, depth)
    decreases |b| - i, 2
  {
    hide Items, Blank, SkipWs, ParseItems;
    var j := SkipWs(b, i + 1);
    SkipsBlank(b, i + 1);
    if !Peek(b, j, ']') {
      var items := ItemsFound(b, j, depth, []);
      assert [] + items == items;
      BlankBefore(b, i + 1, j, ParseArray(b, i, depth).value.next - 1, items, depth + 1);
    }
  }

  lemma BlankJoins(b: string, i: nat, j: nat, k: nat)
    requires Blank(b, i, j) && Blank(b, j, k)
    ensures Blank(b, i, k)
  {
  }

  lemma BlankBefore(b: string, i: nat, j: nat, n: nat, items: seq<Value>, depth: nat)
    requires Blank(b, i, j) && items != [] && Items(b, j, n, items, depth)
    ensures Items(b, i, n, items, depth)
  {
    hide Val, Blank;
    var p: nat, q: nat, r: nat :| Item(b, j, n, items, depth, p, q, r);
    BlankJoins(b, i, j, p);
    assert Item(b, i, n, items, depth, p, q, r);
  }

  lemma {:induction false} ItemsFound(b: string, i: nat, depth: nat, out: seq<Value>) returns (items: seq<Value>)
    requires i <= |b| && ParseItems(b, i, depth, out).Ok?
    ensures var r := ParseItems(b, i, depth, out).value;
      && items != [] && r.value == Arr(out + items)
      && b[r.next - 1] == ']' && Items(b, i, r.next - 1, items, depth + 1)
    decreases |b| - i, 4
  {
    hide SkipWs, Val, Blank, ParseValue;
    var p := SkipWs(b, i);
    SkipsBlank(b, i);
    ValueFound(b, p, depth + 1);
    var v := ParseValue(b, p, depth + 1).value;
    var q := SkipWs(b, v.next);
    SkipsBlank(b, v.next);
    var n := ParseItems(b, i, depth, out).value.next - 1;
    if Peek(b, q, ',') {
      var rest := ItemsFound(b, q + 1, depth, out + [v.value]);
      items := [v.value] + rest;
      assert items[1..] == rest && out + [v.value] + rest == out + items;
    } else {
      items := [v.value];
    }
    assert Item(b, i, n, items, depth + 1, p, v.next, q);
  }

  lemma {:induction false} ObjectFound(b: string, i: nat, depth: nat)
    requires Peek(b, i, '{') && depth <= 128 && ParseObject(b, i, depth).Ok?
    ensures var r := ParseObject(b, i, depth).value; Val(b, i, r.next, r.value, depth)
    decreases |b| - i, 2
  {
    hide Members, Blank, SkipWs, ParseMembers;
    var j := SkipWs(b, i + 1);
    SkipsBlank(b, i + 1);
    if !Peek(b, j, '}') {
      var ms := MembersFound(b, j, depth, []);
      assert [] + ms == ms;
      BlankBeforeKey(b, i + 1, j, ParseObject(b, i, depth).value.next - 1, ms, depth + 1);
    }
  }

  lemma KeyLater(b: string, i: nat, j: nat, n: nat, key: string)
    requires Blank(b, i, j) && Key(b, j, n, key)
    ensures Key(b, i, n, key)
  {
    hide Quoted, Blank;
    var p: nat, q: nat, r: nat :| KeyAt(b, j, n, key, p, q, r);
    BlankJoins(b, i, j, p);
    assert KeyAt(b, i, n, key, p, q, r);
  }

  lemma BlankBeforeKey(b: string, i: nat, j: nat, n: nat, ms: seq<Member>, depth: nat)
    requires Blank(b, i, j) && ms != [] && Members(b, j, n, ms, depth)
    ensures Members(b, i, n, ms, depth)
  {
    hide Val, Blank, Key;
    var p: nat, q: nat, r: nat :| Entry(b, j, n, ms, depth, p, q, r);
    KeyLater(b, i, j, p, ms[0].key);
    assert Entry(b, i, n, ms, depth, p, q, r);
  }

  lemma {:induction false} MembersFound(b: string, i: nat, depth: nat, out: seq<Member>) returns (ms: seq<Member>)
    requires i <= |b| && ParseMembers(b, i, depth, out).Ok?
    ensures var r := ParseMembers(b, i, depth, out).value;
      && ms != [] && r.value == Obj(out + ms)
      && b[r.next - 1] == '}' && Members(b, i, r.next - 1, ms, depth + 1)
    decreases |b| - i, 4
  {
    hide SkipWs, Val, Blank, ParseValue, Key, ParseKey;
    KeyFound(b, i);
    var key := ParseKey(b, i).value;
    ValueFound(b, key.next, depth + 1);
    var v := ParseValue(b, key.next, depth + 1).value;
    var q := SkipWs(b, v.next);
    SkipsBlank(b, v.next);
    var n := ParseMembers(b, i, depth, out).value.next - 1;
    var m := Member(key.value, v.value);
    if Peek(b, q, ',') {
      var rest := MembersFound(b, q + 1, depth, out + [m]);
      ms := [m] + rest;
      assert ms[1..] == rest && out + [m] + rest == out + ms;
    } else {
      ms := [m];
    }
    assert Entry(b, i, n, ms, depth + 1, key.next, v.next, q);
  }

  // ---------- what is in the grammar is accepted ----------

  /** A value starts with no blank and with none of the closing marks. */
  lemma Starts(b: string, i: nat, j: nat, v: Value, depth: nat)
    requires Val(b, i, j, v, depth)
    ensures !Space(b[i]) && b[i] != ']' && b[i] != '}'
  {
    hide Items, Members, Chars, Exponent, DecValue, Times, Blank;
    match v
    case Null => assert b[i] == b[i..j][0];
    case Bool(_) => assert b[i] == b[i..j][0];
    case Num(n) =>
      var k: nat, m: nat, e: int :| Parts(b, i, j, n, k, m, e);
      assert b[i] == '-' || IsDigit(b[i]);
    case _ =>
  }

  lemma {:induction false} ValueRead(b: string, i: nat, j: nat, v: Value, depth: nat)
    requires Val(b, i, j, v, depth) && Ends(b, j)
    ensures ParseValue(b, i, depth) == Ok(Parsed(v, j))
    decreases v, 2
  {
    hide ParseWord, ParseString, ParseArray, ParseObject, ParseNumber, Quoted, Numeral, Items, Members, Blank, Ends;
    hide Spells;
    match v
    case Null => WordRead(b, i, j, "null", Null);
    case Bool(t) => WordRead(b, i, j, if t then "true" else "false", v);
    case Num(n) => NumberRead(b, i, j, n);
    case Str(s) => StringRead(b, i, j, s);
    case Arr(items) => ArrayRead(b, i, j, items, depth);
    case Obj(ms) => ObjectRead(b, i, j, ms, depth);
  }

  lemma WordRead(b: string, i: nat, j: nat, word: string, v: Value)
    requires i < j && Spells(b, i, j, word) && word != []
    ensures i < |b| && b[i] == word[0] && ParseWord(b, i, word, v) == Ok(Parsed(v, j))
  {
    assert b[i] == b[i..j][0];
    WordFound(b, i, word, v);
  }

  lemma {:induction false} ArrayRead(b: string, i: nat, j: nat, items: seq<Value>, depth: nat)
    requires Val(b, i, j, Arr(items), depth)
    ensures Peek(b, i, '[') && ParseArray(b, i, depth) == Ok(Parsed(Arr(items), j))
    decreases items, 2
  {
    hide Items, Blank, SkipWs, ParseItems;
    if items == [] {
      BlankSkipped(b, i + 1, j - 1);
    } else {
      ItemsStart(b, i + 1, j - 1, items, depth + 1);
      ItemsRead(b, SkipWs(b, i + 1), j - 1, items, depth, []);
      assert [] + items == items;
    }
  }

  lemma ItemsStart(b: string, i: nat, j: nat, items: seq<Value>, depth: nat)
    requires items != [] && Items(b, i, j, items, depth)
    ensures i <= |b| && Items(b, SkipWs(b, i), j, items, depth) && !Peek(b, SkipWs(b, i), ']')
  {
    hide Val, Blank, SkipWs;
    var p: nat, q: nat, r: nat :| Item(b, i, j, items, depth, p, q, r);
    InVal(b, p, q, items[0], depth);
    Starts(b, p, q, items[0], depth);
    SkipIs(b, i, p);
    assert Item(b, p, j, items, depth, p, q, r);
  }

  lemma SkipIs(b: string, i: nat, p: nat)
    requires Blank(b, i, p) && p < |b| && !Space(b[p])
    ensures i <= |b| && SkipWs(b, i) == p && Blank(b, p, p)
  {
    BlankSkipped(b, i, p);
  }

  lemma {:induction false} ItemsRead(b: string, i: nat, j: nat, items: seq<Value>, depth: nat, out: seq<Value>)
    requires items != [] && Items(b, i, j, items, depth + 1) && j < |b| && b[j] == ']'
    ensures i <= |b| && ParseItems(b, i, depth, out) == Ok(Parsed(Arr(out + items), j + 1))
    decreases items, 1
  {
    hide SkipWs, Val, Blank, ParseValue;
    var p: nat, q: nat, r: nat :| Item(b, i, j, items, depth + 1, p, q, r);
    var v := items[0];
    InVal(b, p, q, v, depth + 1);
    Starts(b, p, q, v, depth + 1);
    SkipIs(b, i, p);
    EndsAfter(b, q, r);
    ValueRead(b, p, q, v, depth + 1);
    SkipIs(b, q, r);
    if |items| > 1 {
      ItemsRead(b, r + 1, j, items[1..], depth, out + [v]);
      assert out + [v] + items[1..] == out + items;
    } else {
      assert items == [v];
    }
  }

  lemma InVal(b: string, i: nat, j: nat, v: Value, depth: nat)
    requires Val(b, i, j, v, depth)
    ensures i < j <= |b|
  {
  }

  /** A value with blanks and a mark after it ends there. */
  lemma EndsAfter(b: string, q: nat, r: nat)
    requires Blank(b, q, r) && r < |b| && (b[r] == ',' || b[r] == ']' || b[r] == '}')
    ensures Ends(b, q)
  {
  }

  lemma {:induction false} ObjectRead(b: string, i: nat, j: nat, ms: seq<Member>, depth: nat)
    requires Val(b, i, j, Obj(ms), depth)
    ensures Peek(b, i, '{') && ParseObject(b, i, depth) == Ok(Parsed(Obj(ms), j))
    decreases ms, 2
  {
    hide Members, Blank, SkipWs, ParseMembers;
    if ms == [] {
      BlankSkipped(b, i + 1, j - 1);
    } else {
      MembersStart(b, i + 1, j - 1, ms, depth + 1);
      MembersRead(b, SkipWs(b, i + 1), j - 1, ms, depth, []);
      assert [] + ms == ms;
    }
  }

  lemma KeyStart(b: string, i: nat, j: nat, key: string)
    requires Key(b, i, j, key)
    ensures i <= |b| && Key(b, SkipWs(b, i), j, key) && Peek(b, SkipWs(b, i), '"')
  {
    hide Chars, Blank, SkipWs;
    var p: nat, q: nat, r: nat :| KeyAt(b, i, j, key, p, q, r);
    assert Quoted(b, p, q, key) && b[p] == '"';
    SkipIs(b, i, p);
    assert KeyAt(b, p, j, key, p, q, r);
  }

  lemma MembersStart(b: string, i: nat, j: nat, ms: seq<Member>, depth: nat)
    requires ms != [] && Members(b, i, j, ms, depth)
    ensures i <= |b| && Members(b, SkipWs(b, i), j, ms, depth) && !Peek(b, SkipWs(b, i), '}')
  {
    hide Val, Blank, SkipWs, Key;
    var p: nat, q: nat, r: nat :| Entry(b, i, j, ms, depth, p, q, r);
    KeyStart(b, i, p, ms[0].key);
    assert Entry(b, SkipWs(b, i), j, ms, depth, p, q, r);
  }

  lemma {:induction false} MembersRead(b: string, i: nat, j: nat, ms: seq<Member>, depth: nat, out: seq<Member>)
    requires ms != [] && Members(b, i, j, ms, depth + 1) && j < |b| && b[j] == '}'
    ensures i <= |b| && ParseMembers(b, i, depth, out) == Ok(Parsed(Obj(out + ms), j + 1))
    decreases ms, 1
  {
    hide SkipWs, Val, Blank, ParseValue, Key, ParseKey;
    var p: nat, q: nat, r: nat :| Entry(b, i, j, ms, depth + 1, p, q, r);
    var m := ms[0];
    InVal(b, p, q, m.value, depth + 1);
    Starts(b, p, q, m.value, depth + 1);
    KeyRead(b, i, p, m.key);
    EndsAfter(b, q, r);
    ValueRead(b, p, q, m.value, depth + 1);
    SkipIs(b, q, r);
    if |ms| > 1 {
      MembersRead(b, r + 1, j, ms[1..], depth, out + [m]);
      assert out + [m] + ms[1..] == out + ms;
    } else {
      assert ms == [m];
    }
  }

  // ---------- documents ----------

  /** One value with blanks around it and nothing else. */
  ghost predicate Document(b: string, v: Value) {
    exists p: nat, q: nat :: Blank(b, 0, p) && Val(b, p, q, v, 0) && Blank(b, q, |b|)
  }

  lemma DocumentFound(b: string)
    requires Parse(b).Ok?
    ensures Document(b, Parse(b).value)
  {
    hide ParseValue, SkipWs, Val, Blank, Bytes;
    SkipsBlank(b, 0);
    var p := SkipWs(b, 0);
    ValueFound(b, p, 0);
    var r := ParseValue(b, p, 0).value;
    SkipsBlank(b, r.next);
  }

  lemma DocumentRead(b: string, v: Value)
    requires Document(b, v) && Bytes(b) <= 8_388_608
    ensures Parse(b) == Ok(v)
  {
    hide ParseValue, SkipWs, Val, Bytes;
    var p: nat, q: nat :| Blank(b, 0, p) && Val(b, p, q, v, 0) && Blank(b, q, |b|);
    InVal(b, p, q, v, 0);
    Starts(b, p, q, v, 0);
    hide Blank;
    SkipIs(b, 0, p);
    EndsAtEnd(b, q);
    ValueRead(b, p, q, v, 0);
    BlankSkipped(b, q, |b|);
  }

  lemma EndsAtEnd(b: string, q: nat)
    requires Blank(b, q, |b|)
    ensures Ends(b, q)
  {
  }

  /**
   The parser accepts a text with a value exactly when the text is at most 8 MiB and the grammar has it
   with that value: every escape, every form of number, every blank, the depth cap and nothing after.
   */
  lemma {:induction false} ParserIsGrammar(b: string, v: Value)
    ensures Parse(b) == Ok(v) <==> Bytes(b) <= 8_388_608 && Document(b, v)
  {
    if Parse(b) == Ok(v) {
      DocumentFound(b);
    }
    hide Document, ParseValue, SkipWs;
    if Bytes(b) <= 8_388_608 && Document(b, v) {
      DocumentRead(b, v);
    }
  }
}
