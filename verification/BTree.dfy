/** The standard library's ordered sets and maps: what walking one in key order visits. */
module BTree {
  import opened Text

  ghost predicate IsLeast(s: set<string>, m: string) {
    m in s && forall x :: x in s ==> StrLe(m, x)
  }

  lemma {:induction false} LeastExists(s: set<string>)
    requires s != {}
    ensures exists m :: IsLeast(s, m)
  {
    var x :| x in s;
    if s == {x} {
      StrLeTotal(x, x);
      assert IsLeast(s, x);
    } else {
      LeastExists(s - {x});
      var m :| IsLeast(s - {x}, m);
      StrLeTotal(m, x);
      StrLeTotal(x, x);
      if StrLe(m, x) {
        assert IsLeast(s, m);
      } else {
        forall y | y in s ensures StrLe(x, y) {
          if y != x {
            StrLeTransitive(x, m, y);
          }
        }
        assert IsLeast(s, x);
      }
    }
  }

  /** The first key of a non-empty set. */
  ghost function Least(s: set<string>): (m: string)
    requires s != {}
    ensures IsLeast(s, m)
  {
    LeastExists(s);
    var m :| IsLeast(s, m);
    m
  }

  ghost predicate Ascending(keys: seq<string>) {
    forall i, j :: 0 <= i < j < |keys| ==> StrLe(keys[i], keys[j]) && keys[i] != keys[j]
  }

  /** The keys in the order an iterator yields them. */
  ghost function Ordered(s: set<string>): (keys: seq<string>)
    ensures Ascending(keys)
    ensures forall x :: x in keys <==> x in s
    ensures |keys| == |s|
  {
    if s == {} then []
    else
      var m := Least(s);
      [m] + Ordered(s - {m})
  }

  method First(left: set<string>) returns (m: string)
    requires left != {}
    ensures m == Least(left)
  {
    hide StrLe;
    m :| m in left;
    StrLeTotal(m, m);
    var rest := left - {m};
    while rest != {}
      invariant m in left && rest <= left
      invariant forall x :: x in left && x !in rest ==> StrLe(m, x)
      decreases |rest|
    {
      var x :| x in rest;
      StrLeTotal(m, x);
      if !StrLe(m, x) {
        forall y | y in left && y !in rest ensures StrLe(x, y) {
          StrLeTransitive(x, m, y);
        }
        StrLeTotal(x, x);
        m := x;
      }
      rest := rest - {x};
    }
    StrLeTotal(m, Least(left));
  }

  lemma OrderedStep(done: seq<string>, left: set<string>, m: string)
    requires left != {} && m == Least(left)
    ensures done + Ordered(left) == (done + [m]) + Ordered(left - {m})
  {
    hide Least, Ascending, StrLe;
    var more := Ordered(left - {m});
    assert Ordered(left) == [m] + more;
    assert done + ([m] + more) == (done + [m]) + more;
  }

  lemma OrderedNothing()
    ensures Ordered({}) == []
  {
  }

  /** A walk in that order. */
  method Walk(s: set<string>) returns (keys: seq<string>)
    ensures keys == Ordered(s)
  {
    hide *;
    keys := [];
    OrderedNothing();
    var left := s;
    while left != {}
      invariant Ordered(s) == keys + Ordered(left)
      decreases |left|
    {
      var m := First(left);
      OrderedStep(keys, left, m);
      keys := keys + [m];
      left := left - {m};
    }
  }
}
