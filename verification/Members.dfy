/** The members of a JSON object by name, whatever order they come in: the first of a name counts. */
module Members {
  import opened Wrappers
  import opened Decimals
  import opened Json
  import opened Flat

  /** The first member with the key has the value. */
  ghost predicate Has(ms: seq<Member>, key: string, v: Value) {
    exists i :: 0 <= i < |ms| && ms[i] == Member(key, v) && forall j :: 0 <= j < i ==> ms[j].key != key
  }

  ghost predicate Lacks(ms: seq<Member>, key: string) {
    forall i :: 0 <= i < |ms| ==> ms[i].key != key
  }

  lemma {:induction false} HasIs(ms: seq<Member>, key: string, v: Value)
    ensures Get(ms, key) == Some(v) <==> Has(ms, key, v)
  {
    if ms != [] {
      var rest := ms[1..];
      HasIs(rest, key, v);
      if ms[0].key == key {
        assert Has(ms, key, v) ==> ms[0].value == v;
        assert ms[0].value == v ==> ms[0] == Member(key, v);
      } else {
        if Has(ms, key, v) {
          var i :| 0 <= i < |ms| && ms[i] == Member(key, v) && forall j :: 0 <= j < i ==> ms[j].key != key;
          assert rest[i - 1] == Member(key, v) && forall j :: 0 <= j < i - 1 ==> rest[j].key == ms[j + 1].key != key;
        }
        if Has(rest, key, v) {
          var i :| 0 <= i < |rest| && rest[i] == Member(key, v) && forall j :: 0 <= j < i ==> rest[j].key != key;
          assert ms[i + 1] == Member(key, v) && forall j :: 0 < j < i + 1 ==> ms[j].key == rest[j - 1].key;
        }
      }
    }
  }

  lemma {:induction false} LacksIs(ms: seq<Member>, key: string)
    ensures Get(ms, key).None? <==> Lacks(ms, key)
  {
    if ms != [] {
      LacksIs(ms[1..], key);
      assert ms == [ms[0]] + ms[1..];
    }
  }

  lemma StrIs(ms: seq<Member>, key: string)
    ensures forall s :: GetStr(ms, key) == Ok(s) <==> Has(ms, key, Str(s))
  {
    hide Get, Has;
    forall s ensures GetStr(ms, key) == Ok(s) <==> Has(ms, key, Str(s)) {
      HasIs(ms, key, Str(s));
    }
  }

  /** A number that is not negative. */
  ghost predicate HasNum(ms: seq<Member>, key: string, n: Decimal) {
    n >= 0.0 && Has(ms, key, Num(n))
  }

  lemma NumIs(ms: seq<Member>, key: string)
    ensures forall n: Decimal :: GetNum(ms, key) == Ok(n) <==> HasNum(ms, key, n)
  {
    hide Get, Has;
    forall n: Decimal ensures GetNum(ms, key) == Ok(n) <==> HasNum(ms, key, n) {
      HasIs(ms, key, Num(n));
    }
  }

  // ---------- exactly these names ----------

  lemma SameSize(a: seq<string>, b: seq<string>)
    requires multiset(a) == multiset(b)
    ensures |a| == |b|
  {
    assert |multiset(a)| == |multiset(b)|;
  }

  lemma CountOne(s: seq<string>, i: nat)
    requires i < |s| && forall j, k :: 0 <= j < k < |s| ==> s[j] != s[k]
    ensures multiset(s)[s[i]] == 1
  {
    assert s == s[..i] + [s[i]] + s[i + 1..];
    assert s[i] !in s[..i] && s[i] !in s[i + 1..];
  }

  lemma SameDistinct(a: seq<string>, b: seq<string>)
    requires multiset(a) == multiset(b) && forall j, k :: 0 <= j < k < |a| ==> a[j] != a[k]
    ensures forall j, k :: 0 <= j < k < |b| ==> b[j] != b[k]
  {
    forall j, k | 0 <= j < k < |b| ensures b[j] != b[k] {
      assert b[j] in multiset(b);
      var i :| 0 <= i < |a| && a[i] == b[j];
      CountOne(a, i);
      AtLeastTwo(b, j, k);
    }
  }

  lemma AtLeastTwo(s: seq<string>, j: nat, k: nat)
    requires j < k < |s|
    ensures s[j] == s[k] ==> multiset(s)[s[j]] >= 2
  {
    assert s == s[..k] + [s[k]] + s[k + 1..];
    assert s[j] in s[..k];
  }

  /** Distinct names from a list of as many distinct names are that list, rearranged. */
  lemma Within(a: seq<string>, b: seq<string>)
    requires |a| == |b| && (forall j, k :: 0 <= j < k < |a| ==> a[j] != a[k])
    requires (forall j, k :: 0 <= j < k < |b| ==> b[j] != b[k]) && forall i :: 0 <= i < |a| ==> a[i] in b
    ensures multiset(a) == multiset(b)
  {
    forall x: string ensures multiset(a)[x] <= multiset(b)[x] {
      if x in a {
        var i :| 0 <= i < |a| && a[i] == x;
        CountOne(a, i);
      }
    }
    assert multiset(b) == multiset(a) + (multiset(b) - multiset(a));
    assert |multiset(b) - multiset(a)| == 0;
  }

  /** Exactly these names, each once, in whatever order. */
  ghost predicate Exactly(ms: seq<Member>, names: seq<string>) {
    && |ms| == |names|
    && (forall i, j :: 0 <= i < j < |ms| ==> ms[i].key != ms[j].key)
    && (forall i :: 0 <= i < |ms| ==> ms[i].key in names)
  }

  lemma KeysMean(ms: seq<Member>, names: seq<string>)
    requires forall j, k :: 0 <= j < k < |names| ==> names[j] != names[k]
    ensures multiset(Keys(ms)) == multiset(names) <==> Exactly(ms, names)
  {
    var keys := Keys(ms);
    assert |keys| == |ms| && forall i :: 0 <= i < |ms| ==> keys[i] == ms[i].key;
    if multiset(keys) == multiset(names) {
      SameSize(keys, names);
      SameDistinct(names, keys);
      forall i | 0 <= i < |keys| ensures keys[i] in names {
        assert keys[i] in multiset(keys);
      }
    }
    if Exactly(ms, names) {
      Within(keys, names);
    }
  }
}
