/** The order of strings, character by character, that every sort and every ordered map and set follows. */
module Lexical {
  import opened Text

  /** The first place where the two differ, and `a` has the smaller character there. */
  ghost predicate SmallerAt(a: string, b: string, i: nat) {
    i < |a| && i < |b| && a[i] < b[i] && forall j :: 0 <= j < i ==> a[j] == b[j]
  }

  ghost predicate Shorter(a: string, b: string) {
    |a| < |b| && forall j :: 0 <= j < |a| ==> a[j] == b[j]
  }

  /** Strictly before, character by character: a proper prefix, or smaller at the first difference. */
  ghost predicate Precedes(a: string, b: string) {
    Shorter(a, b) || exists i: nat :: SmallerAt(a, b, i)
  }

  lemma ShorterTail(a: string, b: string)
    requires a != [] && b != [] && a[0] == b[0]
    ensures Shorter(a, b) <==> Shorter(a[1..], b[1..])
  {
    var s, t := a[1..], b[1..];
    if Shorter(a, b) {
      assert forall j :: 0 <= j < |s| ==> s[j] == a[j + 1] == b[j + 1] == t[j];
    }
    if Shorter(s, t) {
      assert forall j :: 0 < j < |a| ==> a[j] == s[j - 1] == t[j - 1] == b[j];
    }
  }

  lemma SmallerTail(a: string, b: string, i: nat)
    requires a != [] && b != [] && a[0] == b[0]
    ensures SmallerAt(a, b, i + 1) <==> SmallerAt(a[1..], b[1..], i)
  {
    var s, t := a[1..], b[1..];
    if SmallerAt(a, b, i + 1) {
      assert forall j :: 0 <= j < i ==> s[j] == a[j + 1] == b[j + 1] == t[j];
    }
    if SmallerAt(s, t, i) {
      assert forall j :: 0 < j < i + 1 ==> a[j] == s[j - 1] == t[j - 1] == b[j];
    }
  }

  lemma PrecedesTail(a: string, b: string)
    requires a != [] && b != [] && a[0] == b[0]
    ensures Precedes(a, b) <==> Precedes(a[1..], b[1..])
  {
    ShorterTail(a, b);
    assert !SmallerAt(a, b, 0);
    hide SmallerAt, Shorter;
    if exists i: nat :: SmallerAt(a, b, i) {
      var i: nat :| SmallerAt(a, b, i);
      SmallerTail(a, b, i - 1);
    }
    if exists i: nat :: SmallerAt(a[1..], b[1..], i) {
      var i: nat :| SmallerAt(a[1..], b[1..], i);
      SmallerTail(a, b, i);
    }
  }

  lemma PrecedesHead(a: string, b: string)
    requires a != [] && b != []
    ensures a[0] < b[0] ==> Precedes(a, b)
    ensures Precedes(a, b) ==> a[0] <= b[0]
  {
    assert a[0] < b[0] ==> SmallerAt(a, b, 0);
  }

  lemma PrecedesEmpty(a: string, b: string)
    requires a == [] || b == []
    ensures Precedes(a, b) <==> b != []
  {
  }

  lemma NotItself(a: string)
    ensures !Precedes(a, a)
  {
  }

  /** The order of lanes, and of every ordered set and map, is the lexicographic one. */
  lemma {:induction false} OrderIsLexical(a: string, b: string)
    ensures StrLe(a, b) <==> a == b || Precedes(a, b)
  {
    hide Precedes;
    if a == [] || b == [] {
      PrecedesEmpty(a, b);
    } else {
      PrecedesHead(a, b);
      if a[0] == b[0] {
        PrecedesTail(a, b);
        OrderIsLexical(a[1..], b[1..]);
        assert a == [a[0]] + a[1..] && b == [b[0]] + b[1..];
      }
    }
  }
}
