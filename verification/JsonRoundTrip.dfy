/**
 Reading back what the writer wrote: `parse(to_string(v)) == v` exactly when the text is within
 the size cap and the value within the depth cap; what that says about injectivity; and what the
 grammar does with surrogate pairs, which the writer never emits.
 */
module JsonRoundTrip {
  import opened Wrappers
  import opened Text
  import opened Decimals
  import opened Json

  /** The text ends here or goes on with a character no number can contain. */
  ghost predicate Delim(b: string, k: int) {
    0 <= k <= |b| && (k == |b| || b[k] in {',', ']', '}'})
  }

  // ---------- strings ----------

  /** The parser reads the escape of a character behind its backslash. */
  lemma ReadEscape(b: string, i: nat, c: char)
    requires At(b, i, EscapedChar(c)) && EscapedChar(c)[0] == '\\'
    ensures b[i] == '\\' && ParseEscape(b, i + 1) == Ok(Parsed(c, i + |EscapedChar(c)|))
  {
    var e := EscapedChar(c);
    assert b[i] == e[0];
    assert b[i + 1] == e[1];
    if |e| == 6 {
      assert b[i + 2] == e[2] && b[i + 3] == e[3] && b[i + 4] == e[4] && b[i + 5] == e[5];
      var hi, lo := c as int / 16, c as int % 16;
      HexRun(b, i + 2, hi, lo);
      assert ParseUnicode(b, i + 1) == Ok(Parsed(c, i + 6));
    }
  }

  lemma ReadEscapedChar(b: string, i: nat, c: char, out: string)
    requires At(b, i, EscapedChar(c))
    ensures ParseChars(b, i, out) == ParseChars(b, i + |EscapedChar(c)|, out + [c])
  {
    var e := EscapedChar(c);
    assert b[i] == e[0];
    assert e[0] != '\\' ==> c != '"' && c != '\\' && c as int >= 0x20;
    hide EscapedChar, ParseEscape;
    if e[0] == '\\' {
      ReadEscape(b, i, c);
    }
  }

  lemma HexRun(b: string, i: nat, hi: nat, lo: nat)
    requires i + 4 <= |b| && hi < 16 && lo < 16
    requires b[i] == '0' && b[i + 1] == '0' && HexValue(b[i + 2]) == Some(hi) && HexValue(b[i + 3]) == Some(lo)
    ensures ParseHex(b, i, 4, 0) == Ok(Parsed(hi * 16 + lo, i + 4))
  {
    assert ParseHex(b, i + 3, 1, hi) == ParseHex(b, i + 4, 0, hi * 16 + lo);
    assert ParseHex(b, i + 2, 2, 0) == ParseHex(b, i + 3, 1, hi);
    assert ParseHex(b, i + 1, 3, 0) == ParseHex(b, i + 2, 2, 0);
  }

  lemma {:induction false} ReadChars(b: string, i: nat, s: string, out: string)
    requires At(b, i, Escaped(s) + "\"")
    ensures ParseChars(b, i, out) == Ok(Parsed(out + s, i + |Escaped(s)| + 1))
    decreases |s|
  {
    hide EscapedChar, ParseEscape, ParseUnicode;
    if s == [] {
      assert Escaped(s) + "\"" == "\"";
      assert b[i] == b[i..i + 1][0];
      assert out + s == out;
    } else {
      var h, t := EscapedChar(s[0]), Escaped(s[1..]);
      AtFramed(b, i, h, t, "\"");
      ReadEscapedChar(b, i, s[0], out);
      ReadChars(b, i + |h|, s[1..], out + [s[0]]);
      assert out + [s[0]] + s[1..] == out + s;
    }
  }

  lemma ReadStr(b: string, i: nat, s: string)
    requires At(b, i, WriteStr(s))
    ensures Peek(b, i, '"')
    ensures ParseString(b, i) == Ok(Parsed(s, i + |WriteStr(s)|))
  {
    hide Escaped, ParseChars;
    assert WriteStr(s) == "\"" + (Escaped(s) + "\"");
    AtParts(b, i, "\"", Escaped(s) + "\"");
    assert b[i] == b[i..i + 1][0];
    ReadChars(b, i + 1, s, []);
    assert [] + s == s;
  }

  // ---------- numbers ----------

  lemma ReadDigits(b: string, i: nat, d: string)
    requires At(b, i, d) && AllDigits(d)
    requires i + |d| == |b| || !IsDigit(b[i + |d|])
    ensures SkipDigits(b, i) == i + |d|
    decreases |d|
  {
    if d != [] {
      assert b[i] == b[i..i + |d|][0];
      assert b[i + 1..i + |d|] == b[i..i + |d|][1..] == d[1..];
      ReadDigits(b, i + 1, d[1..]);
    }
  }

  lemma WrittenDigits(w: nat, f: Decimal)
    requires 0.0 <= f < 1.0
    ensures DecValue(Dec(w) + FracDigits(f)) as real == Shifted(f + w as real, |FracDigits(f)|)
  {
    hide Dec, DecValue, FracDigits, Shifted, Pow10;
    FracValue(f);
    DecValueAppend(Dec(w), FracDigits(f));
    ShiftedPlus(f, w, |FracDigits(f)|);
  }

  /** The digits the writer prints, read as a decimal, are the number. */
  lemma WrittenValue(n: Decimal)
    ensures NumberValue(n < 0.0, Dec(Abs(n).Floor), FracDigits(Fraction(n)), 0) == n
  {
    hide Dec, DecValue, FracDigits, Shifted, Fraction;
    var k := |FracDigits(Fraction(n))|;
    WrittenDigits(Abs(n).Floor, Fraction(n));
    ShiftedBack(Abs(n), k);
    ShiftedZero(Abs(n));
  }

  lemma ShiftedZero(n: real)
    ensures Shifted(n, 0) == n
  {
  }

  /** A token without a point, read from its first digit at `j`, after the sign if there is one. */
  lemma ReadPlain(b: string, i: nat, neg: bool, d: string)
    requires d != [] && AllDigits(d) && (|d| > 1 ==> d[0] != '0')
    requires var j := if neg then i + 1 else i; At(b, j, d) && Delim(b, j + |d|)
    requires neg ==> Peek(b, i, '-')
    ensures i < |b| && (b[i] == '-' || IsDigit(b[i]))
    ensures ParseNumber(b, i) == Ok(Parsed(Num(NumberValue(neg, d, "", 0)), (if neg then i + 1 else i) + |d|))
  {
    hide DecValue, SkipDigits, NumberValue;
    var j := if neg then i + 1 else i;
    var k := j + |d|;
    assert b[j..k] == d && b[j] == b[j..k][0];
    ReadDigits(b, j, d);
  }

  /** Where the digits of a token with a point end. */
  lemma PointDigits(b: string, j: nat, d: string, frac: string, start: nat)
    requires d != [] && AllDigits(d) && AllDigits(frac)
    requires At(b, j, d + "." + frac) && Delim(b, j + |d + "." + frac|)
    ensures var k := j + |d|;
      var m := k + 1 + |frac|;
      && m <= |b| && b[j..k] == d && b[j] == d[0] && SkipDigits(b, j) == k && Peek(b, k, '.')
      && SkipDigits(b, k + 1) == m && b[k + 1..m] == frac && ParseExponent(b, m, start) == Ok(Parsed(0, m))
  {
    hide SkipDigits, DecValue;
    var k := j + |d|;
    AtFramed(b, j, d, ".", frac);
    AtParts(b, k, ".", frac);
    assert b[j] == b[j..k][0] && b[k] == b[k..k + 1][0];
    ReadDigits(b, j, d);
    ReadDigits(b, k + 1, frac);
  }

  /** A token with a point. */
  lemma ReadPoint(b: string, i: nat, neg: bool, d: string, frac: string)
    requires d != [] && AllDigits(d) && (|d| > 1 ==> d[0] != '0') && AllDigits(frac)
    requires var j := if neg then i + 1 else i; At(b, j, d + "." + frac) && Delim(b, j + |d + "." + frac|)
    requires neg ==> Peek(b, i, '-')
    ensures i < |b| && (b[i] == '-' || IsDigit(b[i]))
    ensures ParseNumber(b, i)
      == Ok(Parsed(Num(NumberValue(neg, d, frac, 0)), (if neg then i + 1 else i) + |d + "." + frac|))
  {
    hide DecValue, SkipDigits, NumberValue, ParseExponent, At, Delim;
    PointDigits(b, if neg then i + 1 else i, d, frac, i);
  }

  lemma {:induction false} ReadNum(b: string, i: nat, n: Decimal)
    requires At(b, i, WriteNum(n)) && Delim(b, i + |WriteNum(n)|)
    ensures i < |b| && (b[i] == '-' || IsDigit(b[i]))
    ensures ParseNumber(b, i) == Ok(Parsed(Num(n), i + |WriteNum(n)|))
  {
    hide Dec, DecValue, FracDigits, SkipDigits, NumberValue, ParseNumber, Fraction;
    var sign, d, f := if n < 0.0 then "-" else "", Dec(Abs(n).Floor), Fraction(n);
    var point := if f == 0.0 then "" else "." + FracDigits(f);
    WrittenValue(n);
    assert WriteNum(n) == sign + (d + point);
    AtParts(b, i, sign, d + point);
    if n < 0.0 {
      assert b[i] == b[i..i + 1][0];
    }
    if f == 0.0 {
      assert d + point == d && FracDigits(f) == "";
      ReadPlain(b, i, n < 0.0, d);
    } else {
      assert d + point == d + "." + FracDigits(f);
      ReadPoint(b, i, n < 0.0, d, FracDigits(f));
    }
  }

  // ---------- values ----------

  lemma NoSpace(b: string, i: nat, w: string)
    requires At(b, i, w) && w != [] && w[0] !in {' ', '\t', '\n', '\r'}
    ensures i < |b| && b[i] == w[0] && SkipWs(b, i) == i
  {
    assert b[i] == b[i..i + |w|][0];
  }

  lemma AtFramed(b: string, i: nat, open: string, w: string, close: string)
    requires At(b, i, open + w + close)
    ensures At(b, i, open) && At(b, i + |open|, w + close)
  {
    assert open + w + close == open + (w + close);
    AtParts(b, i, open, w + close);
  }

  /** The first of several written elements, the comma after it, and the others. */
  lemma AtListed(b: string, i: nat, w: string, more: string, close: string)
    requires At(b, i, w + "," + more + close)
    ensures At(b, i, w) && At(b, i + |w| + 1, more + close)
    ensures Peek(b, i + |w|, ',') && SkipWs(b, i + |w|) == i + |w|
  {
    assert w + "," + more + close == w + ("," + (more + close));
    AtParts(b, i, w, "," + (more + close));
    AtParts(b, i + |w|, ",", more + close);
    NoSpace(b, i + |w|, ",");
  }

  /** No written value begins with a space or a closing bracket. */
  lemma WrittenStart(v: Value)
    ensures WriteValue(v) != []
    ensures WriteValue(v)[0] !in {' ', '\t', '\n', '\r', ']', '}', ','}
  {
    if v.Num? {
      assert WriteNum(v.n)[0] == '-' || IsDigit(WriteNum(v.n)[0]);
    }
  }

  lemma {:induction false} ReadBack(b: string, i: nat, v: Value, depth: nat)
    requires At(b, i, WriteValue(v)) && Delim(b, i + |WriteValue(v)|)
    ensures depth + Nest(v) <= MAX_DEPTH ==> ParseValue(b, i, depth) == Ok(Parsed(v, i + |WriteValue(v)|))
    ensures depth + Nest(v) > MAX_DEPTH ==> ParseValue(b, i, depth).Err?
    decreases v, 1
  {
    hide ParseArray, ParseObject, ParseString, ParseNumber, SkipWs, Escaped, WriteItems, WriteMembers, WriteNum;
    var w := WriteValue(v);
    WrittenStart(v);
    NoSpace(b, i, w);
    if depth <= MAX_DEPTH {
      match v
      case Null => ReadWord(b, i, "null");
      case Bool(x) => ReadWord(b, i, w);
      case Num(n) => ReadNum(b, i, n);
      case Str(s) => ReadStr(b, i, s);
      case Arr(items) => ReadArray(b, i, items, depth);
      case Obj(ms) => ReadObject(b, i, ms, depth);
    }
  }

  lemma ReadWord(b: string, i: nat, word: string)
    requires At(b, i, word)
    ensures word <= b[i..]
  {
    assert b[i..][..|word|] == b[i..i + |word|];
  }

  lemma {:induction false} ReadArray(b: string, i: nat, items: seq<Value>, depth: nat)
    requires At(b, i, "[" + WriteItems(items) + "]") && depth <= MAX_DEPTH
    ensures Peek(b, i, '[')
    ensures depth + Nest(Arr(items)) <= MAX_DEPTH ==>
      ParseArray(b, i, depth) == Ok(Parsed(Arr(items), i + |WriteItems(items)| + 2))
    ensures depth + Nest(Arr(items)) > MAX_DEPTH ==> ParseArray(b, i, depth).Err?
    decreases items, 2
  {
    hide ParseItems, SkipWs, WriteValue;
    var rest := WriteItems(items) + "]";
    AtFramed(b, i, "[", WriteItems(items), "]");
    NoSpace(b, i, "[");
    if items == [] {
      NoSpace(b, i + 1, "]");
    } else {
      WrittenStart(items[0]);
      assert rest[0] == WriteValue(items[0])[0];
      NoSpace(b, i + 1, rest);
      ReadItems(b, i + 1, items, depth, []);
      assert [] + items == items;
    }
  }

  lemma {:induction false} ReadItems(b: string, i: nat, items: seq<Value>, depth: nat, out: seq<Value>)
    requires items != [] && At(b, i, WriteItems(items) + "]")
    ensures depth + 1 + NestItems(items) <= MAX_DEPTH ==>
      ParseItems(b, i, depth, out) == Ok(Parsed(Arr(out + items), i + |WriteItems(items)| + 1))
    ensures depth + 1 + NestItems(items) > MAX_DEPTH ==> ParseItems(b, i, depth, out).Err?
    decreases items, 0
  {
    hide ParseValue, WriteValue, SkipWs, Nest, ParseItems;
    var v := items[0];
    var w, last := WriteValue(v), |items| == 1;
    var k := i + |w|;
    if last {
      AtParts(b, i, w, "]");
      NoSpace(b, k, "]");
      assert items[1..] == [];
    } else {
      AtListed(b, i, w, WriteItems(items[1..]), "]");
    }
    ReadItem(b, i, v, depth, out);
    assert NestItems(items) == Max(Nest(v), NestItems(items[1..]));
    if last {
      assert out + items == out + [v];
    } else {
      ReadItems(b, k + 1, items[1..], depth, out + [v]);
      assert out + [v] + items[1..] == out + items;
    }
  }

  /** One step of the array loop. */
  lemma {:induction false} ReadItem(b: string, i: nat, v: Value, depth: nat, out: seq<Value>)
    requires At(b, i, WriteValue(v))
    requires var k := i + |WriteValue(v)|; k < |b| && b[k] in {',', ']'} && SkipWs(b, k) == k
    ensures var k := i + |WriteValue(v)|;
      if depth + 1 + Nest(v) > MAX_DEPTH then ParseItems(b, i, depth, out).Err?
      else if b[k] == ',' then ParseItems(b, i, depth, out) == ParseItems(b, k + 1, depth, out + [v])
      else ParseItems(b, i, depth, out) == Ok(Parsed(Arr(out + [v]), k + 1))
    decreases v, 2
  {
    hide ParseValue, WriteValue, SkipWs, Nest;
    WrittenStart(v);
    NoSpace(b, i, WriteValue(v));
    ReadBack(b, i, v, depth + 1);
  }

  lemma {:induction false} ReadObject(b: string, i: nat, ms: seq<Member>, depth: nat)
    requires At(b, i, "{" + WriteMembers(ms) + "}") && depth <= MAX_DEPTH
    ensures Peek(b, i, '{')
    ensures depth + Nest(Obj(ms)) <= MAX_DEPTH ==>
      ParseObject(b, i, depth) == Ok(Parsed(Obj(ms), i + |WriteMembers(ms)| + 2))
    ensures depth + Nest(Obj(ms)) > MAX_DEPTH ==> ParseObject(b, i, depth).Err?
    decreases ms, 2
  {
    hide ParseMembers, SkipWs, WriteValue, Escaped;
    var rest := WriteMembers(ms) + "}";
    AtFramed(b, i, "{", WriteMembers(ms), "}");
    NoSpace(b, i, "{");
    if ms == [] {
      NoSpace(b, i + 1, "}");
    } else {
      assert rest[0] == WriteStr(ms[0].key)[0] == '"';
      NoSpace(b, i + 1, rest);
      ReadMembers(b, i + 1, ms, depth, []);
      assert [] + ms == ms;
    }
  }

  lemma ReadKey(b: string, i: nat, key: string, v: Value)
    requires At(b, i, WriteStr(key) + ":" + WriteValue(v))
    ensures ParseKey(b, i) == Ok(Parsed(key, i + |WriteStr(key)| + 1))
    ensures At(b, i + |WriteStr(key)| + 1, WriteValue(v))
  {
    hide Escaped, WriteValue, SkipWs, ParseString;
    var k, w := WriteStr(key), WriteValue(v);
    AtFramed(b, i, k, ":", w);
    AtParts(b, i + |k|, ":", w);
    NoSpace(b, i, k);
    ReadStr(b, i, key);
    NoSpace(b, i + |k|, ":");
    WrittenStart(v);
    NoSpace(b, i + |k| + 1, w);
  }

  lemma {:induction false} ReadMembers(b: string, i: nat, ms: seq<Member>, depth: nat, out: seq<Member>)
    requires ms != [] && At(b, i, WriteMembers(ms) + "}")
    ensures depth + 1 + NestMembers(ms) <= MAX_DEPTH ==>
      ParseMembers(b, i, depth, out) == Ok(Parsed(Obj(out + ms), i + |WriteMembers(ms)| + 1))
    ensures depth + 1 + NestMembers(ms) > MAX_DEPTH ==> ParseMembers(b, i, depth, out).Err?
    decreases ms, 0
  {
    hide ParseValue, WriteValue, SkipWs, Nest, ParseKey, WriteStr, ParseMembers;
    var m := ms[0];
    var w, last := WriteMember(m), |ms| == 1;
    var k := i + |w|;
    if last {
      AtParts(b, i, w, "}");
      NoSpace(b, k, "}");
      assert ms[1..] == [];
    } else {
      AtListed(b, i, w, WriteMembers(ms[1..]), "}");
    }
    ReadMember(b, i, m, depth, out);
    assert NestMembers(ms) == Max(Nest(m.value), NestMembers(ms[1..]));
    if last {
      assert out + ms == out + [m];
    } else {
      ReadMembers(b, k + 1, ms[1..], depth, out + [m]);
      assert out + [m] + ms[1..] == out + ms;
    }
  }

  /** One step of the member loop. */
  lemma {:induction false} ReadMember(b: string, i: nat, m: Member, depth: nat, out: seq<Member>)
    requires At(b, i, WriteMember(m))
    requires var k := i + |WriteMember(m)|; k < |b| && b[k] in {',', '}'} && SkipWs(b, k) == k
    ensures var k := i + |WriteMember(m)|;
      if depth + 1 + Nest(m.value) > MAX_DEPTH then ParseMembers(b, i, depth, out).Err?
      else if b[k] == ',' then ParseMembers(b, i, depth, out) == ParseMembers(b, k + 1, depth, out + [m])
      else ParseMembers(b, i, depth, out) == Ok(Parsed(Obj(out + [m]), k + 1))
    decreases m, 2
  {
    hide ParseValue, WriteValue, SkipWs, Nest, ParseKey, WriteStr;
    ReadKey(b, i, m.key, m.value);
    ReadBack(b, i + |WriteStr(m.key)| + 1, m.value, depth + 1);
  }

  /** The round trip, with both caps: nothing else can make it fail. */
  lemma {:induction false} RoundTrip(v: Value)
    ensures Parse(WriteValue(v)) == Ok(v) <==> Bytes(WriteValue(v)) <= MAX_BYTES && Nest(v) <= MAX_DEPTH
  {
    hide ParseValue, SkipWs, WriteValue, Nest, Bytes;
    var b := WriteValue(v);
    assert b[0..0 + |b|] == b;
    ReadBack(b, 0, v, 0);
    WrittenStart(v);
    NoSpace(b, 0, b);
    NothingLeft(b);
  }

  lemma NothingLeft(b: string)
    ensures SkipWs(b, |b|) == |b| && Delim(b, |b|)
  {
  }

  /** Two values that are written alike are the same value. */
  lemma {:induction false} WriteInjective(u: Value, v: Value)
    requires Nest(u) <= MAX_DEPTH && Nest(v) <= MAX_DEPTH
    requires WriteValue(u) == WriteValue(v)
    ensures u == v
  {
    hide WriteValue, ParseValue, Nest;
    var b := WriteValue(u);
    assert b[0..0 + |b|] == b;
    ReadBack(b, 0, u, 0);
    ReadBack(b, 0, v, 0);
  }

  // ---------- \u escapes against section 7 of RFC 8259 ----------

  function Hex4(n: nat): (h: string)
    requires n < 0x1_0000
    ensures |h| == 4
  {
    [HexDigit(n / 0x1000), HexDigit(n / 0x100 % 16), HexDigit(n / 16 % 16), HexDigit(n % 16)]
  }

  function EscapeUnit(n: nat): string
    requires n < 0x1_0000
  {
    "\\u" + Hex4(n)
  }

  function HighOf(c: char): nat
    requires c as int >= 0x1_0000
  {
    0xD800 + (c as int - 0x1_0000) / 0x400
  }

  function LowOf(c: char): nat
    requires c as int >= 0x1_0000
  {
    0xDC00 + (c as int - 0x1_0000) % 0x400
  }

  /** The escaped form the RFC gives a character: one unit, or a surrogate pair above U+FFFF. */
  function RfcEscape(c: char): string {
    if c as int < 0x1_0000 then EscapeUnit(c as int) else EscapeUnit(HighOf(c)) + EscapeUnit(LowOf(c))
  }

  lemma ReadHex4(b: string, i: nat, n: nat)
    requires n < 0x1_0000 && At(b, i, EscapeUnit(n))
    ensures Peek(b, i, '\\') && Peek(b, i + 1, 'u')
    ensures ParseHex4(b, i + 1) == Ok(Parsed(n, i + 6))
  {
    hide HexDigit, HexValue, ParseHex;
    var w := b[i..i + 6];
    assert b[i] == w[0] && b[i + 1] == w[1] && b[i + 2] == w[2] && b[i + 3] == w[3] && b[i + 4] == w[4]
      && b[i + 5] == w[5];
    var d1, d2, d3, d4 := n / 0x1000, n / 0x100 % 16, n / 16 % 16, n % 16;
    assert b[i + 2] == HexDigit(d1) && b[i + 3] == HexDigit(d2) && b[i + 4] == HexDigit(d3) && b[i + 5] == HexDigit(d4);
    HexSteps(b, i + 2, d1, d2, d3, d4);
    Nibbles(n);
  }

  lemma Nibbles(n: nat)
    requires n < 0x1_0000
    ensures n / 0x1000 < 16
    ensures ((n / 0x1000 * 16 + n / 0x100 % 16) * 16 + n / 16 % 16) * 16 + n % 16 == n
  {
    assert n / 0x100 == n / 0x1000 * 16 + n / 0x100 % 16;
    assert n / 16 == n / 0x100 * 16 + n / 16 % 16;
  }

  lemma HexSteps(b: string, i: nat, d1: nat, d2: nat, d3: nat, d4: nat)
    requires i + 4 <= |b|
    requires HexValue(b[i]) == Some(d1) && HexValue(b[i + 1]) == Some(d2)
    requires HexValue(b[i + 2]) == Some(d3) && HexValue(b[i + 3]) == Some(d4)
    ensures ParseHex(b, i, 4, 0) == Ok(Parsed(((d1 * 16 + d2) * 16 + d3) * 16 + d4, i + 4))
  {
    var v2, v3 := d1 * 16 + d2, (d1 * 16 + d2) * 16 + d3;
    assert ParseHex(b, i + 3, 1, v3) == ParseHex(b, i + 4, 0, v3 * 16 + d4);
    assert ParseHex(b, i + 2, 2, v2) == ParseHex(b, i + 3, 1, v3);
    assert ParseHex(b, i + 1, 3, d1) == ParseHex(b, i + 2, 2, v2);
  }

  /**
   The parser reads the RFC's escape of a character as that character exactly when the character
   needs one unit: every surrogate pair, well formed as it is, is refused.
   */
  lemma {:induction false} RfcEscapeRead(b: string, i: nat, c: char, out: string)
    requires At(b, i, RfcEscape(c))
    ensures c as int < 0x1_0000 ==> ParseChars(b, i, out) == ParseChars(b, i + |RfcEscape(c)|, out + [c])
    ensures c as int >= 0x1_0000 ==> ParseChars(b, i, out) == Err(JsonErr(i + 6, "lone high surrogate"))
  {
    if c as int < 0x1_0000 {
      OneUnitRead(b, i, c, out);
    } else {
      PairRefused(b, i, HighOf(c), LowOf(c), out);
    }
  }

  lemma OneUnitRead(b: string, i: nat, c: char, out: string)
    requires c as int < 0x1_0000 && At(b, i, EscapeUnit(c as int))
    ensures ParseChars(b, i, out) == ParseChars(b, i + 6, out + [c])
  {
    hide ParseHex4, Hex4;
    ReadHex4(b, i, c as int);
    assert ParseUnicode(b, i + 1) == Ok(Parsed(c, i + 6));
  }

  lemma {:induction false} PairRefused(b: string, i: nat, hi: nat, lo: nat, out: string)
    requires IsHigh(hi) && IsLow(lo) && At(b, i, EscapeUnit(hi) + EscapeUnit(lo))
    ensures ParseChars(b, i, out) == Err(JsonErr(i + 6, "lone high surrogate"))
  {
    hide ParseHex4, Hex4;
    AtParts(b, i, EscapeUnit(hi), EscapeUnit(lo));
    ReadHex4(b, i, hi);
    ReadHex4(b, i + 6, lo);
    assert !LowAhead(b, i + 6);
  }

  /** What is accepted instead: the two halves with any one-byte character between them. */
  lemma {:induction false} SplitPairRead(b: string, i: nat, c: char, x: char, out: string)
    requires c as int >= 0x1_0000 && x as int < 0x80
    requires At(b, i, EscapeUnit(HighOf(c)) + [x] + EscapeUnit(LowOf(c)))
    ensures ParseChars(b, i, out) == ParseChars(b, i + 13, out + [c])
  {
    hide ParseHex4, Hex4;
    AtFramed(b, i, EscapeUnit(HighOf(c)), [x], EscapeUnit(LowOf(c)));
    AtParts(b, i + 6, [x], EscapeUnit(LowOf(c)));
    assert b[i + 6] == b[i + 6..i + 7][0];
    ReadHex4(b, i, HighOf(c));
    ReadHex4(b, i + 7, LowOf(c));
    assert Join(HighOf(c), LowOf(c)) == c;
    assert ParseUnicode(b, i + 1) == Ok(Parsed(c, i + 13));
  }
}
