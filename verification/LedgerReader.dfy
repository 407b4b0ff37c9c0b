/**
 Which lines of a ledger count: `row_seq` and the damage count of crates/caddis-core/src/ledger.rs, said by
 where the two keys occur.
 */
module LedgerReader {
  import opened Wrappers
  import opened Text
  import opened LedgerRow
  import opened Ledger

  /** `pat` occurs in `s` at `p` and nowhere else. */
  ghost predicate Single(s: string, pat: string, p: int) {
    forall i :: At(s, i, pat) <==> i == p
  }

  /** The last character occurs nowhere before, so two occurrences never overlap. */
  ghost predicate Rigid(pat: string) {
    pat != [] && forall k :: 0 <= k < |pat| - 1 ==> pat[k] != pat[|pat| - 1]
  }

  lemma Apart(s: string, pat: string, i: int, j: int)
    requires Rigid(pat) && At(s, i, pat) && At(s, j, pat) && i < j
    ensures i + |pat| <= j
  {
    var last := i + |pat| - 1;
    assert s[i..i + |pat|][|pat| - 1] == s[last];
    assert s[j..j + |pat|] == pat && forall k :: j <= k < j + |pat| ==> s[k] == pat[k - j];
  }

  lemma AtTail(s: string, n: nat, i: int, pat: string)
    requires n <= |s| && n <= i
    ensures At(s, i, pat) <==> At(s[n..], i - n, pat)
  {
    if 0 <= i && i + |pat| <= |s| {
      assert s[n..][i - n..i - n + |pat|] == s[i..i + |pat|];
    }
  }

  lemma {:induction false} CountedOnce(s: string, pat: string, i: int)
    requires pat != [] && At(s, i, pat)
    ensures CountMatches(s, pat) >= 1
    decreases |s|
  {
    if !(pat <= s) {
      assert i != 0;
      AtTail(s, 1, i, pat);
      CountedOnce(s[1..], pat, i - 1);
    }
  }

  lemma {:induction false} CountedTwice(s: string, pat: string, i: int, j: int)
    requires Rigid(pat) && At(s, i, pat) && At(s, j, pat) && i < j
    ensures CountMatches(s, pat) >= 2
    decreases |s|
  {
    if pat <= s {
      assert At(s, 0, pat);
      Apart(s, pat, 0, j);
      AtTail(s, |pat|, j, pat);
      CountedOnce(s[|pat|..], pat, j - |pat|);
    } else {
      assert i != 0;
      AtTail(s, 1, i, pat);
      AtTail(s, 1, j, pat);
      CountedTwice(s[1..], pat, i - 1, j - 1);
    }
  }

  /** A pattern is counted once exactly when it has one place, which is where it is found. */
  lemma CountIsOne(s: string, pat: string)
    requires Rigid(pat)
    ensures pat != [] && (CountMatches(s, pat) == 1 <==> exists p :: Single(s, pat, p))
    ensures forall p :: Single(s, pat, p) ==> 0 <= p && Find(s, pat) == Some(p)
  {
    hide CountMatches, Find, Rigid;
    RigidSolid(pat);
    forall p | Single(s, pat, p) ensures 0 <= p && Find(s, pat) == Some(p) && CountMatches(s, pat) == 1 {
      assert At(s, p, pat);
      OneMatch(s, pat, p);
    }
    if CountMatches(s, pat) == 1 {
      if forall i :: !At(s, i, pat) {
        NoMatch(s, pat);
      } else {
        var p :| At(s, p, pat);
        forall i ensures At(s, i, pat) <==> i == p {
          if At(s, i, pat) && i < p {
            CountedTwice(s, pat, i, p);
          } else if At(s, i, pat) && p < i {
            CountedTwice(s, pat, p, i);
          }
        }
        assert Single(s, pat, p);
      }
    }
  }

  lemma RigidSolid(pat: string)
    requires Rigid(pat)
    ensures pat != []
  {
  }

  lemma KeysRigid()
    ensures Rigid("\"seq\":") && Rigid("\"body\":")
  {
  }

  /** The digits at `i`, all of them, spell the 64-bit number `n`. */
  ghost predicate NumberAt(s: string, i: int, n: nat) {
    exists j :: 0 <= i < j <= |s| && NumberSpan(s, i, j, n)
  }

  ghost predicate NumberSpan(s: string, i: int, j: int, n: nat)
    requires 0 <= i < j <= |s|
  {
    AllDigits(s[i..j]) && (j == |s| || !IsDigit(s[j])) && DecValue(s[i..j]) == n < U64_LIMIT
  }

  lemma DigitsAre(s: string, i: nat, n: nat)
    requires i <= |s|
    ensures ParseU64(LeadingDigits(s[i..])) == Some(n) <==> NumberAt(s, i, n)
  {
    var d := LeadingDigits(s[i..]);
    LeadingSpan(s[i..]);
    var j := i + |d|;
    assert s[i..j] == d;
    hide DecValue, LeadingDigits;
    assert forall x :: i <= x < j ==> IsDigit(s[x]) by {
      forall x | i <= x < j ensures IsDigit(s[x]) {
        assert s[x] == d[x - i];
      }
    }
    forall k | i < k <= |s| && NumberSpan(s, i, k, n) ensures k == j {
      assert forall x :: i <= x < k ==> s[x] == s[i..k][x - i];
    }
    if d != [] && ParseU64(d) == Some(n) {
      assert NumberSpan(s, i, j, n);
    }
  }

  lemma {:induction false} LeadingSpan(s: string)
    ensures var d := LeadingDigits(s); d <= s && (|d| == |s| || !IsDigit(s[|d|]))
  {
    if s != [] && IsDigit(s[0]) {
      LeadingSpan(s[1..]);
    }
  }

  /**
   A line counts exactly when, trimmed, it is braced, holds each of the two keys in exactly one place, and
   has a 64-bit number behind the first: two rows run together, or half a row, count for nothing.
   */
  lemma {:induction false} RowSeqLaw(line: string, n: nat)
    ensures var t := Trim(line);
      RowSeq(line) == Some(n) <==>
        && t != "" && t[0] == '{' && t[|t| - 1] == '}'
        && (exists q :: Single(t, "\"body\":", q))
        && exists p :: Single(t, "\"seq\":", p) && NumberAt(t, p + 6, n)
  {
    var t := Trim(line);
    KeysRigid();
    hide CountMatches, Find, Trim, LeadingDigits, ParseU64, NumberAt, Rigid;
    CountIsOne(t, SEQ_KEY);
    CountIsOne(t, BODY_MARK);
    if CountMatches(t, SEQ_KEY) == 1 {
      var p :| Single(t, SEQ_KEY, p);
      assert At(t, p, SEQ_KEY);
      DigitsAre(t, p + 6, n);
      assert forall q :: Single(t, SEQ_KEY, q) ==> q == p;
    }
  }

  function Blank(lines: seq<string>): nat {
    if lines == [] then 0 else (if Trim(lines[0]) == "" then 1 else 0) + Blank(lines[1..])
  }

  /** Every line is a number, damaged, or blank. */
  lemma {:induction false} LinesAccounted(lines: seq<string>)
    ensures |Numbers(lines)| + Damaged(lines) + Blank(lines) == |lines|
  {
    hide RowSeq, Trim;
    if lines != [] {
      BlankHasNone(lines[0]);
      LinesAccounted(lines[1..]);
    }
  }

  lemma BlankHasNone(line: string)
    ensures Trim(line) == "" ==> RowSeq(line).None?
  {
    hide Trim, CountMatches, Find;
  }
}
