/**
 The writer of crates/caddis-deliberate/src/json.rs is compact: of all the texts the grammar has for a
 value without numbers, it writes one of the shortest.
 */
module JsonWriter {
  import opened Text
  import opened Json
  import opened JsonGrammar

  lemma OneShortest(b: string, i: nat, j: nat, c: char)
    requires OneChar(b, i, j, c)
    ensures |EscapedChar(c)| <= j - i
  {
    hide HexNumber;
  }

  lemma {:induction false} CharsShortest(b: string, i: nat, j: nat, s: string)
    requires Chars(b, i, j, s)
    ensures |Escaped(s)| <= j - i
    decreases |s|
  {
    hide OneChar, EscapedChar;
    if s != [] {
      var m: nat :| i < m <= j && OneChar(b, i, m, s[0]) && Chars(b, m, j, s[1..]);
      OneShortest(b, i, m, s[0]);
      CharsShortest(b, m, j, s[1..]);
    }
  }

  /** No number anywhere in the value. */
  ghost predicate Numberless(v: Value)
    decreases v, 1
  {
    match v
    case Num(_) => false
    case Arr(items) => forall i :: 0 <= i < |items| ==> Numberless(items[i])
    case Obj(ms) => forall i :: 0 <= i < |ms| ==> Numberless(ms[i].value)
    case _ => true
  }

  lemma QuotedShortest(b: string, i: nat, j: nat, s: string)
    requires Quoted(b, i, j, s)
    ensures |WriteStr(s)| <= j - i
  {
    hide Chars, Escaped;
    CharsShortest(b, i + 1, j - 1, s);
  }

  lemma KeyShortest(b: string, i: nat, j: nat, key: string)
    requires Key(b, i, j, key)
    ensures |WriteStr(key)| + 1 <= j - i
  {
    hide Quoted, WriteStr;
    var p: nat, q: nat, r: nat :| KeyAt(b, i, j, key, p, q, r);
    QuotedShortest(b, p, q, key);
  }

  lemma {:induction false} ValueShortest(b: string, i: nat, j: nat, v: Value, depth: nat)
    requires Val(b, i, j, v, depth) && Numberless(v)
    ensures |WriteValue(v)| <= j - i
    decreases v, 2
  {
    hide Quoted, WriteStr, Items, Members, Blank, Numeral;
    match v
    case Str(s) => QuotedShortest(b, i, j, s);
    case Arr(items) =>
      if items != [] {
        ItemsShortest(b, i + 1, j - 1, items, depth + 1);
      }
    case Obj(ms) =>
      if ms != [] {
        MembersShortest(b, i + 1, j - 1, ms, depth + 1);
      }
    case _ =>
  }

  lemma {:induction false} ItemsShortest(b: string, i: nat, j: nat, items: seq<Value>, depth: nat)
    requires items != [] && Items(b, i, j, items, depth)
    requires forall k :: 0 <= k < |items| ==> Numberless(items[k])
    ensures |WriteItems(items)| <= j - i
    decreases items, 1
  {
    hide Val, WriteValue, Numberless;
    var p: nat, q: nat, r: nat :| Item(b, i, j, items, depth, p, q, r);
    ValueShortest(b, p, q, items[0], depth);
    if |items| > 1 {
      ItemsShortest(b, r + 1, j, items[1..], depth);
    }
  }

  lemma {:induction false} MembersShortest(b: string, i: nat, j: nat, ms: seq<Member>, depth: nat)
    requires ms != [] && Members(b, i, j, ms, depth)
    requires forall k :: 0 <= k < |ms| ==> Numberless(ms[k].value)
    ensures |WriteMembers(ms)| <= j - i
    decreases ms, 1
  {
    hide Val, WriteValue, WriteStr, Numberless, Key;
    var p: nat, q: nat, r: nat :| Entry(b, i, j, ms, depth, p, q, r);
    KeyShortest(b, i, p, ms[0].key);
    ValueShortest(b, p, q, ms[0].value, depth);
    if |ms| > 1 {
      MembersShortest(b, r + 1, j, ms[1..], depth);
    }
  }

  /** Whatever document denotes a value without numbers, the written text is no longer. */
  lemma {:induction false} WrittenIsShortest(b: string, v: Value)
    requires Document(b, v) && Numberless(v)
    ensures |WriteValue(v)| <= |b|
  {
    hide Val, Blank, WriteValue, Numberless;
    var p: nat, q: nat :| Blank(b, 0, p) && Val(b, p, q, v, 0) && Blank(b, q, |b|);
    InVal(b, p, q, v, 0);
    ValueShortest(b, p, q, v, 0);
  }
}
