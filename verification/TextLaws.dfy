/** What trimming and cutting into lines promise of every text, said of the characters and their places. */
module TextLaws {
  import opened Text

  // ---------- trimming ----------

  ghost predicate White(c: char) {
    var n := c as int;
    || n in {0x20, 0x85, 0xA0, 0x1680, 0x2028, 0x2029, 0x202F, 0x205F, 0x3000}
    || 0x09 <= n <= 0x0D || 0x2000 <= n <= 0x200A
  }

  /** `t` stands at `i..j` in `s`, white space alone around it and none at either end of it. */
  ghost predicate Stripped(s: string, t: string, i: nat, j: nat) {
    && i <= j <= |s| && t == s[i..j]
    && (forall k :: 0 <= k < i ==> White(s[k])) && (forall k :: j <= k < |s| ==> White(s[k]))
    && (i < j ==> !White(s[i]) && !White(s[j - 1]))
  }

  lemma {:induction false} StartStripped(s: string) returns (i: nat)
    ensures i <= |s| && TrimStart(s) == s[i..] && forall k :: 0 <= k < i ==> White(s[k])
    ensures i < |s| ==> !White(s[i])
  {
    i := 0;
    if s != [] && IsSpace(s[0]) {
      var n := StartStripped(s[1..]);
      i := n + 1;
      assert forall k :: 0 < k < |s| ==> s[k] == s[1..][k - 1];
      assert s[1..][n..] == s[i..];
    }
  }

  lemma {:induction false} EndStripped(s: string) returns (j: nat)
    ensures j <= |s| && TrimEnd(s) == s[..j] && forall k :: j <= k < |s| ==> White(s[k])
    ensures j > 0 ==> !White(s[j - 1])
  {
    j := |s|;
    if s != [] && IsSpace(s[|s| - 1]) {
      var front := s[..|s| - 1];
      j := EndStripped(front);
      assert forall k :: 0 <= k < |front| ==> s[k] == front[k];
      assert front[..j] == s[..j];
    }
  }

  /** Trimming takes the white space off both ends, all of it and nothing else. */
  lemma {:induction false} TrimLaw(s: string)
    ensures exists i: nat, j: nat :: Stripped(s, Trim(s), i, j)
  {
    hide White, TrimStart, TrimEnd;
    var i := StartStripped(s);
    var rest := s[i..];
    var n := EndStripped(rest);
    assert forall k :: 0 <= k < |rest| ==> rest[k] == s[i + k];
    assert rest[..n] == s[i..i + n];
    forall k | i + n <= k < |s| ensures White(s[k]) {
      assert s[k] == rest[k - i];
    }
    assert Stripped(s, Trim(s), i, i + n);
  }

  // ---------- lines ----------

  /** The pieces with a line feed between each two. */
  ghost function Joined(pieces: seq<string>): string
    requires pieces != []
  {
    if |pieces| == 1 then pieces[0] else pieces[0] + "\n" + Joined(pieces[1..])
  }

  ghost predicate Unbroken(pieces: seq<string>) {
    forall k :: 0 <= k < |pieces| ==> '\n' !in pieces[k]
  }

  /** A carriage return before the line feed goes with it. */
  ghost predicate Ended(piece: string, line: string) {
    piece == line + "\r" || (piece == line && !(|piece| > 0 && piece[|piece| - 1] == '\r'))
  }

  /**
   A line for every piece a line feed ends, without its carriage return, and one more for what is left
   after the last of them unless nothing is.
   */
  ghost predicate Cut(pieces: seq<string>, lines: seq<string>)
    requires pieces != []
  {
    var n := |pieces| - 1;
    && |lines| == (if pieces[n] == "" then n else n + 1)
    && (forall k :: 0 <= k < n ==> Ended(pieces[k], lines[k]))
    && (pieces[n] != "" ==> lines[n] == pieces[n])
  }

  lemma CrEnded(piece: string)
    ensures Ended(piece, StripCr(piece))
  {
    if piece != [] && piece[|piece| - 1] == '\r' {
      assert piece == piece[..|piece| - 1] + "\r";
    }
  }

  lemma CutCons(piece: string, line: string, pieces: seq<string>, lines: seq<string>)
    requires pieces != [] && Cut(pieces, lines) && Ended(piece, line)
    ensures Cut([piece] + pieces, [line] + lines)
  {
    hide Ended;
    var ps, ls := [piece] + pieces, [line] + lines;
    assert ps[|ps| - 1] == pieces[|pieces| - 1];
    forall k | 0 <= k < |ps| - 1 ensures Ended(ps[k], ls[k]) {
      assert k > 0 ==> ps[k] == pieces[k - 1] && ls[k] == lines[k - 1];
    }
  }

  lemma {:induction false} LinesLaw(s: string) returns (pieces: seq<string>)
    ensures pieces != [] && Unbroken(pieces) && Joined(pieces) == s && Cut(pieces, Lines(s))
    decreases |s|
  {
    hide NewlineAt;
    var k := NewlineAt(s);
    if k == |s| {
      pieces := [s];
    } else {
      var rest := LinesLaw(s[k + 1..]);
      pieces := [s[..k]] + rest;
      CrEnded(s[..k]);
      CutCons(s[..k], StripCr(s[..k]), rest, Lines(s[k + 1..]));
      assert pieces[1..] == rest;
      assert s == s[..k] + "\n" + s[k + 1..];
      hide Cut;
    }
  }
}
