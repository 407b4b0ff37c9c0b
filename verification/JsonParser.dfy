/**
 The parser and the writer of crates/caddis-deliberate/src/json.rs as they are written: an index
 field that every method advances, local buffers that grow, loops. Each method is proved against
 the function of module `Json` for the same production.
 */
module JsonParser {
  import opened Wrappers
  import opened Text
  import opened Json

  /** The method's result and the index it leaves are the ones the grammar gives. */
  ghost predicate Follows<T>(spec: Outcome<T>, r: Result<T, JsonErr>, i: nat) {
    match spec
    case Ok(p) => r == Ok(p.value) && i == p.next
    case Err(e) => r == Err(e)
  }

  class Parser {
    const b: string
    var i: nat

    constructor (b: string)
      ensures this.b == b && i == 0
    {
      this.b := b;
      i := 0;
    }

    ghost predicate Valid()
      reads this
    {
      i <= |b|
    }

    method Ws()
      requires Valid()
      modifies this
      ensures Valid() && i == SkipWs(b, old(i))
    {
      while i < |b| && b[i] in {' ', '\t', '\n', '\r'}
        invariant i <= |b| && SkipWs(b, i) == SkipWs(b, old(i))
      {
        i := i + 1;
      }
    }

    method ReadValue(depth: nat) returns (r: Result<Value, JsonErr>)
      requires Valid()
      modifies this
      ensures Valid() && Follows(ParseValue(b, old(i), depth), r, i)
      decreases |b| - i, 3
    {
      if depth > MAX_DEPTH {
        return Err(JsonErr(i, "nesting deeper than 128"));
      }
      if i == |b| {
        return Err(JsonErr(i, "unexpected end of input"));
      }
      var c := b[i];
      if c == 'n' {
        r := ReadWord("null", Null);
      } else if c == 't' {
        r := ReadWord("true", Bool(true));
      } else if c == 'f' {
        r := ReadWord("false", Bool(false));
      } else if c == '"' {
        var s := ReadString();
        r := if s.Ok? then Ok(Str(s.value)) else Err(s.error);
      } else if c == '[' {
        r := ReadArray(depth);
      } else if c == '{' {
        r := ReadObject(depth);
      } else if c == '-' || IsDigit(c) {
        r := ReadNumber();
      } else {
        r := Err(JsonErr(i, "unexpected byte for a value"));
      }
    }

    method ReadWord(word: string, v: Value) returns (r: Result<Value, JsonErr>)
      requires Valid() && word != []
      modifies this
      ensures Valid() && Follows(ParseWord(b, old(i), word, v), r, i)
    {
      if word <= b[i..] {
        i := i + |word|;
        r := Ok(v);
      } else {
        r := Err(JsonErr(i, "invalid literal"));
      }
    }

    method ReadArray(depth: nat) returns (r: Result<Value, JsonErr>)
      requires Peek(b, i, '[')
      modifies this
      ensures Valid() && Follows(ParseArray(b, old(i), depth), r, i)
      decreases |b| - i, 2
    {
      hide ParseValue, SkipWs;
      ghost var start := i;
      i := i + 1;
      var out: seq<Value> := [];
      Ws();
      if Peek(b, i, ']') {
        i := i + 1;
        return Ok(Arr(out));
      }
      while true
        invariant start < i <= |b|
        invariant ParseItems(b, i, depth, out) == ParseArray(b, start, depth)
        decreases |b| - i
      {
        Ws();
        var v :- ReadValue(depth + 1);
        out := out + [v];
        Ws();
        if Peek(b, i, ',') {
          i := i + 1;
        } else if Peek(b, i, ']') {
          i := i + 1;
          return Ok(Arr(out));
        } else {
          return Err(JsonErr(i, "expected ',' or ']' in array"));
        }
      }
    }

    method ReadObject(depth: nat) returns (r: Result<Value, JsonErr>)
      requires Peek(b, i, '{')
      modifies this
      ensures Valid() && Follows(ParseObject(b, old(i), depth), r, i)
      decreases |b| - i, 2
    {
      hide ParseValue, SkipWs, ParseKey;
      ghost var start := i;
      i := i + 1;
      var out: seq<Member> := [];
      Ws();
      if Peek(b, i, '}') {
        i := i + 1;
        return Ok(Obj(out));
      }
      while true
        invariant start < i <= |b|
        invariant ParseMembers(b, i, depth, out) == ParseObject(b, start, depth)
        decreases |b| - i
      {
        var key :- ReadKey();
        var v :- ReadValue(depth + 1);
        out := out + [Member(key, v)];
        Ws();
        if Peek(b, i, ',') {
          i := i + 1;
        } else if Peek(b, i, '}') {
          i := i + 1;
          return Ok(Obj(out));
        } else {
          return Err(JsonErr(i, "expected ',' or '}' in object"));
        }
      }
    }

    method ReadKey() returns (r: Result<string, JsonErr>)
      requires Valid()
      modifies this
      ensures Valid() && Follows(ParseKey(b, old(i)), r, i)
    {
      Ws();
      if !Peek(b, i, '"') {
        return Err(JsonErr(i, "expected string key in object"));
      }
      var key :- ReadString();
      Ws();
      if !Peek(b, i, ':') {
        return Err(JsonErr(i, "expected ':' after key"));
      }
      i := i + 1;
      Ws();
      return Ok(key);
    }

    method ReadDigits()
      requires Valid()
      modifies this
      ensures Valid() && i == SkipDigits(b, old(i))
    {
      while i < |b| && IsDigit(b[i])
        invariant i <= |b| && SkipDigits(b, i) == SkipDigits(b, old(i))
      {
        i := i + 1;
      }
    }

    method ReadNumber() returns (r: Result<Value, JsonErr>)
      requires Peek(b, i, '-') || (i < |b| && IsDigit(b[i]))
      modifies this
      ensures Valid() && Follows(ParseNumber(b, old(i)), r, i)
    {
      hide NumberValue, SkipDigits, ParseExponent;
      var start, neg := i, b[i] == '-';
      if neg {
        i := i + 1;
      }
      var whole := i;
      ReadDigits();
      var point := i;
      if point == whole {
        return Err(JsonErr(start, "number has no digits"));
      }
      if point - whole > 1 && b[whole] == '0' {
        return Err(JsonErr(start, "leading zero is not valid JSON"));
      }
      var frac := "";
      if Peek(b, i, '.') {
        i := i + 1;
        ReadDigits();
        frac := b[point + 1..i];
      }
      var exp :- ReadExponent(start);
      r := Ok(Num(NumberValue(neg, b[whole..point], frac, exp)));
    }

    method ReadExponent(start: nat) returns (r: Result<int, JsonErr>)
      requires Valid()
      modifies this
      ensures Valid() && Follows(ParseExponent(b, old(i), start), r, i)
    {
      hide DecValue, SkipDigits;
      if !Peek(b, i, 'e') && !Peek(b, i, 'E') {
        return Ok(0);
      }
      i := i + 1;
      var negExp := Peek(b, i, '-');
      if Peek(b, i, '+') || Peek(b, i, '-') {
        i := i + 1;
      }
      var from := i;
      ReadDigits();
      if i == from {
        return Err(JsonErr(start, "invalid number"));
      }
      var e: int := DecValue(b[from..i]);
      return Ok(if negExp then -e else e);
    }

    method ReadString() returns (r: Result<string, JsonErr>)
      requires Peek(b, i, '"')
      modifies this
      ensures Valid() && Follows(ParseString(b, old(i)), r, i)
    {
      ghost var start := i;
      i := i + 1;
      var out := "";
      while true
        invariant start < i <= |b|
        invariant ParseChars(b, i, out) == ParseString(b, start)
        decreases |b| - i
      {
        if i == |b| {
          return Err(JsonErr(i, "unterminated string"));
        }
        if b[i] == '"' {
          i := i + 1;
          return Ok(out);
        } else if b[i] == '\\' {
          i := i + 1;
          var c :- ReadEscape();
          out := out + [c];
        } else if b[i] as int < 0x20 {
          return Err(JsonErr(i, "raw control char in string"));
        } else {
          out := out + [b[i]];
          i := i + 1;
        }
      }
    }

    method ReadEscape() returns (r: Result<char, JsonErr>)
      requires Valid()
      modifies this
      ensures Valid() && Follows(ParseEscape(b, old(i)), r, i)
    {
      if i == |b| {
        return Err(JsonErr(i, "invalid escape"));
      }
      var c := b[i];
      if c == 'u' {
        var hi :- ReadHex4();
        if IsHigh(hi) {
          if !LowAhead(b, i) {
            return Err(JsonErr(i, "lone high surrogate"));
          }
          i := i + 2;
          var lo :- ReadHex4();
          if !IsLow(lo) {
            return Err(JsonErr(i, "invalid low surrogate"));
          }
          return Ok(Join(hi, lo));
        }
        if IsLow(hi) {
          return Err(JsonErr(i, "lone low surrogate"));
        }
        return Ok(hi as char);
      }
      if c == '"' || c == '\\' || c == '/' {
        r := Ok(c);
      } else if c == 'b' {
        r := Ok(BACKSPACE);
      } else if c == 'f' {
        r := Ok(FORM_FEED);
      } else if c == 'n' {
        r := Ok('\n');
      } else if c == 'r' {
        r := Ok('\r');
      } else if c == 't' {
        r := Ok('\t');
      } else {
        return Err(JsonErr(i, "invalid escape"));
      }
      i := i + 1;
    }

    method ReadHex4() returns (r: Result<nat, JsonErr>)
      requires Valid() && i < |b|
      modifies this
      ensures Valid() && Follows(ParseHex4(b, old(i)), r, i)
      ensures r.Ok? ==> r.value < 0x1_0000
    {
      hide HexValue, Pow16;
      ghost var start := i;
      i := i + 1;
      if i + 4 > |b| {
        return Err(JsonErr(i, "short \\u escape"));
      }
      var v := 0;
      for k := 0 to 4
        invariant i == start + 1 + k <= |b| - (4 - k)
        invariant ParseHex(b, i, 4 - k, v) == ParseHex4(b, start)
      {
        var d := HexValue(b[i]);
        if d.None? {
          return Err(JsonErr(i, "non-hex in \\u escape"));
        }
        v := v * 16 + d.value;
        i := i + 1;
      }
      r := Ok(v);
    }
  }

  /** `parse`. */
  method ParseDocument(buf: string) returns (r: Result<Value, JsonErr>)
    ensures r == Parse(buf)
  {
    if Bytes(buf) > MAX_BYTES {
      return Err(JsonErr(0, "document exceeds 8 MiB cap"));
    }
    var p := new Parser(buf);
    p.Ws();
    var v :- p.ReadValue(0);
    p.Ws();
    if p.i != |buf| {
      return Err(JsonErr(p.i, "trailing bytes after document"));
    }
    return Ok(v);
  }

  // ---------- the writer ----------

  lemma {:induction false} WriteItemsSnoc(items: seq<Value>, v: Value)
    ensures WriteItems(items + [v]) == (if items == [] then "" else WriteItems(items) + ",") + WriteValue(v)
  {
    hide WriteValue;
    if |items| > 1 {
      assert (items + [v])[1..] == items[1..] + [v];
      WriteItemsSnoc(items[1..], v);
    }
  }

  lemma {:induction false} WriteMembersSnoc(ms: seq<Member>, m: Member)
    ensures WriteMembers(ms + [m]) == (if ms == [] then "" else WriteMembers(ms) + ",") + WriteMember(m)
  {
    hide WriteMember;
    if |ms| > 1 {
      assert (ms + [m])[1..] == ms[1..] + [m];
      WriteMembersSnoc(ms[1..], m);
    }
  }

  /** `write_str`. */
  method PushStr(s: string, out: string) returns (r: string)
    ensures r == out + WriteStr(s)
  {
    r := out + "\"";
    assert Escaped(s[..0]) == "";
    hide Escaped, EscapedChar;
    for i := 0 to |s|
      invariant r == out + ("\"" + Escaped(s[..i]))
    {
      EscapedSnoc(s[..i], s[i]);
      assert s[..i + 1] == s[..i] + [s[i]];
      r := r + EscapedChar(s[i]);
    }
    assert s[..|s|] == s;
    r := r + "\"";
  }

  /** `write_value`. */
  method PushValue(v: Value, out: string) returns (r: string)
    ensures r == out + WriteValue(v)
    decreases v
  {
    match v
    case Null => r := out + "null";
    case Bool(b) => r := out + if b then "true" else "false";
    case Num(n) => r := out + WriteNum(n);
    case Str(s) => r := PushStr(s, out);
    case Arr(items) =>
      r := PushItems(items, out);
      Regroup3(out, "[", WriteItems(items), "]");
    case Obj(ms) =>
      r := PushMembers(ms, out);
      Regroup3(out, "{", WriteMembers(ms), "}");
  }

  lemma Regroup(out: string, body: string, x: string)
    ensures out + body + x == out + (body + x)
  {
  }

  lemma Regroup3(out: string, open: string, body: string, close: string)
    ensures out + open + body + close == out + (open + body + close)
  {
  }

  method PushItems(items: seq<Value>, out: string) returns (r: string)
    ensures r == out + "[" + WriteItems(items) + "]"
    decreases items
  {
    hide WriteValue;
    r := out + "[";
    for i := 0 to |items|
      invariant r == (out + "[") + WriteItems(items[..i])
    {
      ghost var done := items[..i];
      WriteItemsSnoc(done, items[i]);
      assert items[..i + 1] == done + [items[i]];
      if i > 0 {
        Regroup(out + "[", WriteItems(done), ",");
        r := r + ",";
        Regroup(out + "[", WriteItems(done) + ",", WriteValue(items[i]));
      }
      r := PushValue(items[i], r);
    }
    assert items[..|items|] == items;
    r := r + "]";
  }

  method PushMembers(ms: seq<Member>, out: string) returns (r: string)
    ensures r == out + "{" + WriteMembers(ms) + "}"
    decreases ms
  {
    hide WriteMember;
    r := out + "{";
    for i := 0 to |ms|
      invariant r == (out + "{") + WriteMembers(ms[..i])
    {
      ghost var done := ms[..i];
      WriteMembersSnoc(done, ms[i]);
      assert ms[..i + 1] == done + [ms[i]];
      if i > 0 {
        Regroup(out + "{", WriteMembers(done), ",");
        r := r + ",";
        Regroup(out + "{", WriteMembers(done) + ",", WriteMember(ms[i]));
      }
      r := PushMember(ms[i], r);
    }
    assert ms[..|ms|] == ms;
    r := r + "}";
  }

  method PushMember(m: Member, out: string) returns (r: string)
    ensures r == out + WriteMember(m)
    decreases m
  {
    r := PushStr(m.key, out);
    r := r + ":";
    r := PushValue(m.value, r);
    Regroup(out, WriteStr(m.key), ":");
    Regroup(out, WriteStr(m.key) + ":", WriteValue(m.value));
  }
}
