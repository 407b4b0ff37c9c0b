/**
 Objects written key by key, as the encoders of crates/caddis-deliberate/src do: the keys and the
 enumerated words verbatim between quotes, the rest through the JSON writer. When the verbatim parts
 need no escape, the text is what the writer would have made of the whole object.
 */
module Flat {
  import opened Wrappers
  import opened Text
  import opened Json
  import opened Decimals

  function Word(w: string): string {
    "\"" + w + "\""
  }

  lemma WordIsWritten(w: string)
    requires Plain(w)
    ensures Word(w) == WriteStr(w)
  {
    PlainEscaped(w);
  }

  lemma NatIsWritten(n: nat)
    ensures WriteNum(Int(n)) == Dec(n)
  {
    WholeFraction(Int(n));
  }

  function Pair(f: (string, string)): string {
    Word(f.0) + ":" + f.1
  }

  function Pairs(fields: seq<(string, string)>): string
    decreases |fields|
  {
    if fields == [] then ""
    else if |fields| == 1 then Pair(fields[0])
    else Pair(fields[0]) + "," + Pairs(fields[1..])
  }

  function Object(fields: seq<(string, string)>): string {
    "{" + Pairs(fields) + "}"
  }

  ghost predicate Writes(f: (string, string), m: Member) {
    Plain(f.0) && f.0 == m.key && f.1 == WriteValue(m.value)
  }

  ghost predicate WritesAll(fields: seq<(string, string)>, ms: seq<Member>) {
    |fields| == |ms| && forall i :: 0 <= i < |ms| ==> Writes(fields[i], ms[i])
  }

  lemma NatField(key: string, n: nat)
    requires Plain(key)
    ensures Writes((key, Dec(n)), Member(key, Num(Int(n))))
  {
    NatIsWritten(n);
  }

  lemma StrField(key: string, s: string)
    requires Plain(key)
    ensures Writes((key, WriteStr(s)), Member(key, Str(s)))
  {
  }

  lemma WordField(key: string, w: string)
    requires Plain(key) && Plain(w)
    ensures Writes((key, Word(w)), Member(key, Str(w)))
  {
    WordIsWritten(w);
  }

  lemma PairIsWritten(f: (string, string), m: Member)
    requires Writes(f, m)
    ensures Pair(f) == WriteMember(m)
  {
    WordIsWritten(f.0);
  }

  lemma {:induction false} PairsAreWritten(fields: seq<(string, string)>, ms: seq<Member>)
    requires WritesAll(fields, ms)
    ensures Pairs(fields) == WriteMembers(ms)
    decreases |fields|
  {
    hide Pair, WriteMember, Plain;
    assert forall i :: 0 <= i < |ms| ==> Writes(fields[i], ms[i]);
    if fields != [] {
      PairIsWritten(fields[0], ms[0]);
      PairsAreWritten(fields[1..], ms[1..]);
    }
  }

  lemma {:induction false} ObjectIsWritten(fields: seq<(string, string)>, ms: seq<Member>)
    requires WritesAll(fields, ms)
    ensures Object(fields) == WriteValue(Obj(ms))
  {
    PairsAreWritten(fields, ms);
  }

  lemma FieldsWritten(key: string, fields: seq<(string, string)>, ms: seq<Member>)
    requires Plain(key) && WritesAll(fields, ms)
    ensures Writes((key, Object(fields)), Member(key, Obj(ms)))
  {
    ObjectIsWritten(fields, ms);
  }

  /** Texts already written, between brackets. */
  function Listed(texts: seq<string>): string
    decreases |texts|
  {
    if texts == [] then ""
    else if |texts| == 1 then texts[0]
    else texts[0] + "," + Listed(texts[1..])
  }

  lemma {:induction false} ListedSnoc(texts: seq<string>, t: string)
    ensures Listed(texts + [t]) == (if texts == [] then t else Listed(texts) + "," + t)
    decreases |texts|
  {
    if texts != [] {
      assert (texts + [t])[1..] == texts[1..] + [t];
      ListedSnoc(texts[1..], t);
      if |texts| > 1 {
        assert texts[0] + "," + (Listed(texts[1..]) + "," + t) == (texts[0] + "," + Listed(texts[1..])) + "," + t;
      }
    }
  }

  lemma {:induction false} ListIsWritten(texts: seq<string>, items: seq<Value>)
    requires |texts| == |items| && forall i :: 0 <= i < |items| ==> texts[i] == WriteValue(items[i])
    ensures Listed(texts) == WriteItems(items)
    decreases |texts|
  {
    if texts != [] {
      ListIsWritten(texts[1..], items[1..]);
    }
  }

  /** An object nests one deeper than its deepest member. */
  lemma {:induction false} NestAtMost(ms: seq<Member>, depth: nat)
    requires forall i :: 0 <= i < |ms| ==> Nest(ms[i].value) <= depth
    ensures NestMembers(ms) <= depth && Nest(Obj(ms)) <= 1 + depth
    decreases |ms|
  {
    hide Nest;
    if ms != [] {
      NestAtMost(ms[1..], depth);
    }
    ObjNest(ms);
  }

  lemma ObjNest(ms: seq<Member>)
    ensures Nest(Obj(ms)) <= 1 + NestMembers(ms)
  {
  }

  lemma {:induction false} ItemsNestAtMost(items: seq<Value>, depth: nat)
    requires forall i :: 0 <= i < |items| ==> Nest(items[i]) <= depth
    ensures NestItems(items) <= depth && Nest(Arr(items)) <= 1 + depth
    decreases |items|
  {
    hide Nest;
    if items != [] {
      ItemsNestAtMost(items[1..], depth);
    }
    ArrNest(items);
  }

  lemma ArrNest(items: seq<Value>)
    ensures Nest(Arr(items)) <= 1 + NestItems(items)
  {
  }

  // ---------- reading fields back ----------

  ghost predicate DistinctKeys(ms: seq<Member>) {
    forall i, j :: 0 <= i < j < |ms| ==> ms[i].key != ms[j].key
  }

  function Keys(ms: seq<Member>): seq<string> {
    seq(|ms|, i requires 0 <= i < |ms| => ms[i].key)
  }

  datatype FieldErr = BadField

  function GetStr(ms: seq<Member>, key: string): Result<string, FieldErr> {
    match Get(ms, key)
    case Some(v) => if v.Str? then Ok(v.s) else Err(BadField)
    case None => Err(BadField)
  }

  /** A finite number that is not negative. */
  function GetNum(ms: seq<Member>, key: string): Result<Decimal, FieldErr> {
    match Get(ms, key)
    case Some(v) => if v.Num? && v.n >= 0.0 then Ok(v.n) else Err(BadField)
    case None => Err(BadField)
  }

  lemma StrReads(ms: seq<Member>, i: nat, s: string)
    requires i < |ms| && DistinctKeys(ms) && ms[i].value == Str(s)
    ensures GetStr(ms, ms[i].key) == Ok(s)
  {
    GetAt(ms, i);
  }

  lemma NumReads(ms: seq<Member>, i: nat, n: Decimal)
    requires i < |ms| && DistinctKeys(ms) && ms[i].value == Num(n)
    ensures GetNum(ms, ms[i].key) == if n >= 0.0 then Ok(n) else Err(BadField)
  {
    GetAt(ms, i);
  }

  lemma {:induction false} GetAt(ms: seq<Member>, i: nat)
    requires i < |ms| && DistinctKeys(ms)
    ensures Get(ms, ms[i].key) == Some(ms[i].value)
    decreases |ms|
  {
    if i > 0 {
      GetAt(ms[1..], i - 1);
    }
  }

  predicate AtMost(f: (string, string), n: nat) {
    |f.0| + |f.1| <= n
  }

  /** An object no text of which is long is not long. */
  lemma {:induction false} PairsLength(fields: seq<(string, string)>, n: nat)
    requires forall i :: 0 <= i < |fields| ==> AtMost(fields[i], n)
    ensures |Pairs(fields)| <= |fields| * (n + 4)
    decreases |fields|
  {
    if fields != [] {
      PairsLength(fields[1..], n);
    }
  }

  lemma {:induction false} BytesBound(s: string)
    ensures Bytes(s) <= 4 * |s|
  {
    if s != [] {
      BytesBound(s[1..]);
    }
  }

  lemma {:induction false} EscapedBound(s: string)
    ensures |Escaped(s)| <= 6 * |s|
  {
    if s != [] {
      EscapedBound(s[1..]);
    }
  }

  lemma TooLong(b: string)
    ensures Bytes(b) > MAX_BYTES ==> Parse(b).Err?
  {
  }

  // ---------- one line ----------

  /** Whatever is written fits on one line: no control character is left in it. */
  lemma {:induction false} WrittenPrintable(v: Value)
    ensures Printable(WriteValue(v))
    decreases v, 1
  {
    hide Escaped, Dec;
    match v
    case Null =>
    case Bool(_) =>
    case Num(n) =>
    case Str(s) => EscapedFramed(s);
    case Arr(items) => ItemsPrintable(items);
    case Obj(ms) => MembersPrintable(ms);
  }

  lemma {:induction false} ItemsPrintable(items: seq<Value>)
    ensures Printable(WriteItems(items))
    decreases items, 0
  {
    hide WriteValue;
    if items != [] {
      WrittenPrintable(items[0]);
      ItemsPrintable(items[1..]);
    }
  }

  lemma {:induction false} MembersPrintable(ms: seq<Member>)
    ensures Printable(WriteMembers(ms))
    decreases ms, 0
  {
    hide WriteValue, Escaped;
    if ms != [] {
      EscapedFramed(ms[0].key);
      WrittenPrintable(ms[0].value);
      MembersPrintable(ms[1..]);
    }
  }
}
