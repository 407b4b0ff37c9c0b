/**
 crates/caddis-deliberate/src/json.rs: the values, the grammar as index-passing functions (the
 specification of the `Parser` methods in JsonParser.dfy), the writer, and the round trip.
 */
module Json {
  import opened Wrappers
  import opened Text
  import opened Decimals

  const MAX_DEPTH := 128
  const MAX_BYTES := 8 * 1024 * 1024

  datatype Value =
    | Null
    | Bool(b: bool)
    | Num(n: Decimal)
    | Str(s: string)
    | Arr(items: seq<Value>)
    | Obj(members: seq<Member>)

  datatype Member = Member(key: string, value: Value)

  datatype JsonErr = JsonErr(at: nat, msg: string)

  /** A value and the index after it. */
  datatype Parsed<+T> = Parsed(value: T, next: nat)

  type Outcome<+T> = Result<Parsed<T>, JsonErr>

  /** `Value::get`: the first member with that key. */
  function Get(members: seq<Member>, key: string): (r: Option<Value>)
  {
    if members == [] then None
    else if members[0].key == key then Some(members[0].value)
    else Get(members[1..], key)
  }

  // ---------- the grammar ----------

  predicate Peek(b: string, i: nat, c: char) {
    i < |b| && b[i] == c
  }

  function SkipWs(b: string, i: nat): (j: nat)
    requires i <= |b|
    ensures i <= j <= |b|
    decreases |b| - i
  {
    if i < |b| && b[i] in {' ', '\t', '\n', '\r'} then SkipWs(b, i + 1) else i
  }

  function ParseValue(b: string, i: nat, depth: nat): (r: Outcome<Value>)
    requires i <= |b|
    ensures r.Ok? ==> i < r.value.next <= |b|
    decreases |b| - i, 3
  {
    if depth > MAX_DEPTH then Err(JsonErr(i, "nesting deeper than 128"))
    else if i == |b| then Err(JsonErr(i, "unexpected end of input"))
    else if b[i] == 'n' then ParseWord(b, i, "null", Null)
    else if b[i] == 't' then ParseWord(b, i, "true", Bool(true))
    else if b[i] == 'f' then ParseWord(b, i, "false", Bool(false))
    else if b[i] == '"' then
      var s :- ParseString(b, i);
      Ok(Parsed(Str(s.value), s.next))
    else if b[i] == '[' then ParseArray(b, i, depth)
    else if b[i] == '{' then ParseObject(b, i, depth)
    else if b[i] == '-' || IsDigit(b[i]) then ParseNumber(b, i)
    else Err(JsonErr(i, "unexpected byte for a value"))
  }

  function ParseWord(b: string, i: nat, word: string, v: Value): (r: Outcome<Value>)
    requires i <= |b| && word != []
    ensures r.Ok? ==> i < r.value.next <= |b|
  {
    if word <= b[i..] then Ok(Parsed(v, i + |word|)) else Err(JsonErr(i, "invalid literal"))
  }

  function ParseArray(b: string, i: nat, depth: nat): (r: Outcome<Value>)
    requires Peek(b, i, '[')
    ensures r.Ok? ==> i < r.value.next <= |b|
    decreases |b| - i, 2
  {
    var j := SkipWs(b, i + 1);
    if Peek(b, j, ']') then Ok(Parsed(Arr([]), j + 1)) else ParseItems(b, j, depth, [])
  }

  function ParseItems(b: string, i: nat, depth: nat, out: seq<Value>): (r: Outcome<Value>)
    requires i <= |b|
    ensures r.Ok? ==> i < r.value.next <= |b|
    decreases |b| - i, 4
  {
    var v :- ParseValue(b, SkipWs(b, i), depth + 1);
    var k := SkipWs(b, v.next);
    if Peek(b, k, ',') then ParseItems(b, k + 1, depth, out + [v.value])
    else if Peek(b, k, ']') then Ok(Parsed(Arr(out + [v.value]), k + 1))
    else Err(JsonErr(k, "expected ',' or ']' in array"))
  }

  function ParseObject(b: string, i: nat, depth: nat): (r: Outcome<Value>)
    requires Peek(b, i, '{')
    ensures r.Ok? ==> i < r.value.next <= |b|
    decreases |b| - i, 2
  {
    var j := SkipWs(b, i + 1);
    if Peek(b, j, '}') then Ok(Parsed(Obj([]), j + 1)) else ParseMembers(b, j, depth, [])
  }

  /** One `"key":` with the spaces around it: the key and the index of its value. */
  function ParseKey(b: string, i: nat): (r: Outcome<string>)
    requires i <= |b|
    ensures r.Ok? ==> i < r.value.next <= |b|
  {
    var j := SkipWs(b, i);
    if !Peek(b, j, '"') then Err(JsonErr(j, "expected string key in object"))
    else
      var key :- ParseString(b, j);
      var k := SkipWs(b, key.next);
      if !Peek(b, k, ':') then Err(JsonErr(k, "expected ':' after key"))
      else Ok(Parsed(key.value, SkipWs(b, k + 1)))
  }

  function ParseMembers(b: string, i: nat, depth: nat, out: seq<Member>): (r: Outcome<Value>)
    requires i <= |b|
    ensures r.Ok? ==> i < r.value.next <= |b|
    decreases |b| - i, 4
  {
    var key :- ParseKey(b, i);
    var v :- ParseValue(b, key.next, depth + 1);
    var k := SkipWs(b, v.next);
    var out' := out + [Member(key.value, v.value)];
    if Peek(b, k, ',') then ParseMembers(b, k + 1, depth, out')
    else if Peek(b, k, '}') then Ok(Parsed(Obj(out'), k + 1))
    else Err(JsonErr(k, "expected ',' or '}' in object"))
  }

  function ParseString(b: string, i: nat): (r: Outcome<string>)
    requires Peek(b, i, '"')
    ensures r.Ok? ==> i + 1 < r.value.next <= |b|
  {
    ParseChars(b, i + 1, [])
  }

  function ParseChars(b: string, i: nat, out: string): (r: Outcome<string>)
    requires i <= |b|
    ensures r.Ok? ==> i < r.value.next <= |b|
    decreases |b| - i
  {
    if i == |b| then Err(JsonErr(i, "unterminated string"))
    else if b[i] == '"' then Ok(Parsed(out, i + 1))
    else if b[i] == '\\' then
      var c :- ParseEscape(b, i + 1);
      ParseChars(b, c.next, out + [c.value])
    else if b[i] as int < 0x20 then Err(JsonErr(i, "raw control char in string"))
    else ParseChars(b, i + 1, out + [b[i]])
  }

  /** What follows a backslash. */
  function ParseEscape(b: string, i: nat): (r: Outcome<char>)
    requires i <= |b|
    ensures r.Ok? ==> i < r.value.next <= |b|
  {
    if i == |b| then Err(JsonErr(i, "invalid escape"))
    else if b[i] == '"' || b[i] == '\\' || b[i] == '/' then Ok(Parsed(b[i], i + 1))
    else if b[i] == 'b' then Ok(Parsed(BACKSPACE, i + 1))
    else if b[i] == 'f' then Ok(Parsed(FORM_FEED, i + 1))
    else if b[i] == 'n' then Ok(Parsed('\n', i + 1))
    else if b[i] == 'r' then Ok(Parsed('\r', i + 1))
    else if b[i] == 't' then Ok(Parsed('\t', i + 1))
    else if b[i] == 'u' then ParseUnicode(b, i)
    else Err(JsonErr(i, "invalid escape"))
  }

  predicate IsHigh(n: nat) {
    0xD800 <= n < 0xDC00
  }

  predicate IsLow(n: nat) {
    0xDC00 <= n < 0xE000
  }

  function Join(hi: nat, lo: nat): char
    requires IsHigh(hi) && IsLow(lo)
  {
    (0x1_0000 + (hi - 0xD800) * 0x400 + (lo - 0xDC00)) as char
  }

  /**
   The second half of a surrogate pair is looked for one character past the index `hex4` left,
   as the source does; the skipped character must be a single byte for the byte test to see it.
   */
  predicate LowAhead(b: string, j: nat) {
    j + 2 < |b| && b[j] as int < 0x80 && b[j + 1] == '\\' && b[j + 2] == 'u'
  }

  /** `\uXXXX` with `i` on the `u`. */
  function ParseUnicode(b: string, i: nat): (r: Outcome<char>)
    requires Peek(b, i, 'u')
    ensures r.Ok? ==> i < r.value.next <= |b|
  {
    var hi :- ParseHex4(b, i);
    var j := hi.next;
    if IsHigh(hi.value) then
      if LowAhead(b, j) then
        var lo :- ParseHex4(b, j + 2);
        if IsLow(lo.value) then Ok(Parsed(Join(hi.value, lo.value), lo.next))
        else Err(JsonErr(lo.next, "invalid low surrogate"))
      else Err(JsonErr(j, "lone high surrogate"))
    else if IsLow(hi.value) then Err(JsonErr(j, "lone low surrogate"))
    else Ok(Parsed(hi.value as char, j))
  }

  function ParseHex4(b: string, i: nat): (r: Outcome<nat>)
    requires i < |b|
    ensures r.Ok? ==> r.value.next == i + 5 <= |b| && r.value.value < 0x1_0000
  {
    if i + 5 > |b| then Err(JsonErr(i + 1, "short \\u escape")) else ParseHex(b, i + 1, 4, 0)
  }

  function ParseHex(b: string, i: nat, n: nat, v: nat): (r: Outcome<nat>)
    requires i + n <= |b| && n <= 4
    ensures r.Ok? ==> r.value.next == i + n
    ensures r.Ok? && v < Pow16(4 - n) ==> r.value.value < Pow16(4)
    decreases n
  {
    if n == 0 then Ok(Parsed(v, i))
    else
      match HexValue(b[i])
      case None => Err(JsonErr(i, "non-hex in \\u escape"))
      case Some(d) => ParseHex(b, i + 1, n - 1, v * 16 + d)
  }

  function Pow16(k: nat): nat {
    if k == 0 then 1 else 16 * Pow16(k - 1)
  }

  // ---------- numbers ----------

  function SkipDigits(b: string, i: nat): (j: nat)
    requires i <= |b|
    ensures i <= j <= |b|
    ensures AllDigits(b[i..j])
    ensures j < |b| ==> !IsDigit(b[j])
    decreases |b| - i
  {
    if i < |b| && IsDigit(b[i]) then
      var j := SkipDigits(b, i + 1);
      assert b[i..j] == [b[i]] + b[i + 1..j];
      j
    else i
  }

  function ParseNumber(b: string, start: nat): (r: Outcome<Value>)
    requires start < |b| && (b[start] == '-' || IsDigit(b[start]))
    ensures r.Ok? ==> start < r.value.next <= |b|
  {
    var j := if b[start] == '-' then start + 1 else start;
    var k := SkipDigits(b, j);
    if k == j then Err(JsonErr(start, "number has no digits"))
    else if k - j > 1 && b[j] == '0' then Err(JsonErr(start, "leading zero is not valid JSON"))
    else
      var m := if Peek(b, k, '.') then SkipDigits(b, k + 1) else k;
      var frac := if Peek(b, k, '.') then b[k + 1..m] else "";
      var exp :- ParseExponent(b, m, start);
      Ok(Parsed(Num(NumberValue(b[start] == '-', b[j..k], frac, exp.value)), exp.next))
  }

  /** The exponent part, zero when there is none. */
  function ParseExponent(b: string, m: nat, start: nat): (r: Outcome<int>)
    requires m <= |b|
    ensures r.Ok? ==> m <= r.value.next <= |b|
  {
    if !Peek(b, m, 'e') && !Peek(b, m, 'E') then Ok(Parsed(0, m))
    else
      var x := if Peek(b, m + 1, '+') || Peek(b, m + 1, '-') then m + 2 else m + 1;
      var y := SkipDigits(b, x);
      if y == x then Err(JsonErr(start, "invalid number"))
      else
        var e: int := DecValue(b[x..y]);
        Ok(Parsed(if Peek(b, m + 1, '-') then -e else e, y))
  }

  /** The decimal `whole.frac` times ten to the `exp`, exactly. */
  function NumberValue(neg: bool, whole: string, frac: string, exp: int): Decimal
    requires AllDigits(whole) && AllDigits(frac)
  {
    ScaledIsDecimal(DecValue(whole + frac), exp - |frac|);
    var magnitude: real := Scaled(DecValue(whole + frac) as real, exp - |frac|);
    if neg then -magnitude else magnitude
  }

  // ---------- documents ----------

  /** `parse`: one complete document. */
  function Parse(buf: string): Result<Value, JsonErr> {
    if Bytes(buf) > MAX_BYTES then Err(JsonErr(0, "document exceeds 8 MiB cap"))
    else
      var v :- ParseValue(buf, SkipWs(buf, 0), 0);
      var end := SkipWs(buf, v.next);
      if end != |buf| then Err(JsonErr(end, "trailing bytes after document")) else Ok(v.value)
  }

  // ---------- the writer ----------

  /** The shortest decimal text, without an exponent. */
  function WriteNum(n: Decimal): string {
    (if n < 0.0 then "-" else "") + Dec(Abs(n).Floor)
      + if Fraction(n) == 0.0 then "" else "." + FracDigits(Fraction(n))
  }

  function WriteStr(s: string): string {
    "\"" + Escaped(s) + "\""
  }

  function WriteValue(v: Value): string
    decreases v, 1
  {
    match v
    case Null => "null"
    case Bool(b) => if b then "true" else "false"
    case Num(n) => WriteNum(n)
    case Str(s) => WriteStr(s)
    case Arr(items) => "[" + WriteItems(items) + "]"
    case Obj(ms) => "{" + WriteMembers(ms) + "}"
  }

  function WriteItems(items: seq<Value>): string
    decreases items, 0
  {
    if items == [] then ""
    else if |items| == 1 then WriteValue(items[0])
    else WriteValue(items[0]) + "," + WriteItems(items[1..])
  }

  function WriteMember(m: Member): string
    decreases m, 1
  {
    WriteStr(m.key) + ":" + WriteValue(m.value)
  }

  function WriteMembers(ms: seq<Member>): string
    decreases ms, 0
  {
    if ms == [] then ""
    else if |ms| == 1 then WriteMember(ms[0])
    else WriteMember(ms[0]) + "," + WriteMembers(ms[1..])
  }

  /** How many containers deep the deepest value sits. */
  function Nest(v: Value): nat
    decreases v, 1
  {
    match v
    case Arr(items) => if items == [] then 0 else 1 + NestItems(items)
    case Obj(ms) => if ms == [] then 0 else 1 + NestMembers(ms)
    case _ => 0
  }

  function Max(a: nat, b: nat): nat {
    if a < b then b else a
  }

  function NestItems(items: seq<Value>): nat
    decreases items, 0
  {
    if items == [] then 0 else Max(Nest(items[0]), NestItems(items[1..]))
  }

  function NestMembers(ms: seq<Member>): nat
    decreases ms, 0
  {
    if ms == [] then 0 else Max(Nest(ms[0].value), NestMembers(ms[1..]))
  }
}
