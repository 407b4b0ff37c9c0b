/**
 crates/caddis-core/src/ledger.rs: the counter recovered as the maximum over intact rows, the
 windowed read that keeps it current, and the append.
 */
module Ledger {
  import opened Text
  import opened LedgerRow

  function Raise(hi: nat, line: string): nat {
    match RowSeq(line)
    case None => hi
    case Some(n) => if hi < n then n else hi
  }

  /** The numbers of the intact lines, in order: what a reader of the ledger can cite. */
  function Numbers(lines: seq<string>): seq<nat> {
    if lines == [] then []
    else
      match RowSeq(lines[0])
      case None => Numbers(lines[1..])
      case Some(n) => [n] + Numbers(lines[1..])
  }

  /** The largest intact number, at least `floor`. */
  function Highest(lines: seq<string>, floor: nat): (hi: nat)
    ensures hi >= floor
    ensures forall n :: n in Numbers(lines) ==> n <= hi
    ensures hi == floor || hi in Numbers(lines)
  {
    if lines == [] then floor else Highest(lines[1..], Raise(floor, lines[0]))
  }

  function MaxIntact(text: string): nat {
    Highest(Lines(text), 0)
  }

  /** The number claimed after `hi`: a `u64` addition without overflow checks. */
  function Claim(hi: nat): (n: nat)
    ensures n < U64_LIMIT
  {
    (hi + 1) % U64_LIMIT
  }

  /** No line carries a number past 64 bits. */
  lemma {:induction false} MaxIntactFits(lines: seq<string>, floor: nat)
    requires floor < U64_LIMIT
    ensures Highest(lines, floor) < U64_LIMIT
  {
    if lines != [] {
      MaxIntactFits(lines[1..], Raise(floor, lines[0]));
    }
  }

  lemma MaxFits(text: string)
    ensures MaxIntact(text) < U64_LIMIT
  {
    MaxIntactFits(Lines(text), 0);
  }

  lemma {:induction false} HighestAppend(a: seq<string>, b: seq<string>, floor: nat)
    ensures Highest(a + b, floor) == Highest(b, Highest(a, floor))
  {
    if a == [] {
      assert a + b == b;
    } else {
      assert (a + b)[1..] == a[1..] + b;
      HighestAppend(a[1..], b, Raise(floor, a[0]));
    }
  }

  lemma {:induction false} NumbersAppend(a: seq<string>, b: seq<string>)
    ensures Numbers(a + b) == Numbers(a) + Numbers(b)
  {
    if a == [] {
      assert a + b == b;
    } else {
      assert (a + b)[1..] == a[1..] + b;
      NumbersAppend(a[1..], b);
    }
  }

  lemma {:induction false} HighestFloor(lines: seq<string>, floor: nat)
    ensures Highest(lines, floor) == if floor < Highest(lines, 0) then Highest(lines, 0) else floor
  {
    if lines != [] {
      HighestFloor(lines[1..], Raise(floor, lines[0]));
      HighestFloor(lines[1..], Raise(0, lines[0]));
    }
  }

  /** `max_seq`: only what lies past `readTo`, or everything when the file shrank below it. */
  function Windowed(text: string, seqNo: nat, readTo: nat): nat {
    Highest(Lines(text[if |text| >= readTo then readTo else 0..]), seqNo)
  }

  /** `seqNo` accounts for every row of the first `readTo` characters, which end on a row boundary. */
  ghost predicate Accounts(text: string, seqNo: nat, readTo: nat) {
    readTo <= |text| && Terminated(text[..readTo]) && seqNo == MaxIntact(text[..readTo])
  }

  /**
   The windowed read refines the full rescan: it finds the maximum of the whole file while the file
   has only grown, and on a seen shrink the larger of the carried number and the rescan.
   */
  lemma {:induction false} WindowRefinesRescan(text: string, seqNo: nat, readTo: nat)
    ensures Accounts(text, seqNo, readTo) ==> Windowed(text, seqNo, readTo) == MaxIntact(text)
    ensures |text| < readTo ==>
      Windowed(text, seqNo, readTo) == if seqNo < MaxIntact(text) then MaxIntact(text) else seqNo
  {
    if Accounts(text, seqNo, readTo) {
      assert text == text[..readTo] + text[readTo..];
      LinesAppend(text[..readTo], text[readTo..]);
      HighestAppend(Lines(text[..readTo]), Lines(text[readTo..]), 0);
    }
    if |text| < readTo {
      assert text[0..] == text;
      HighestFloor(Lines(text), seqNo);
    }
  }

  /** A row written after every other adds exactly its number, and is the maximum when it is larger. */
  lemma {:induction false} AppendedRow(text: string, seqNo: nat, env: Envelope)
    requires Terminated(text) && seqNo < U64_LIMIT
    ensures var t := text + RowText(seqNo, env);
      && Terminated(t)
      && Numbers(Lines(t)) == Numbers(Lines(text)) + [seqNo]
      && MaxIntact(t) == if MaxIntact(text) < seqNo then seqNo else MaxIntact(text)
  {
    hide RowText, Lines;
    RowReadsBack(seqNo, env);
    var row := RowText(seqNo, env);
    var t := text + row;
    assert t[|t| - 1] == row[|row| - 1];
    LinesAppend(text, row);
    HighestAppend(Lines(text), Lines(row), 0);
    NumbersAppend(Lines(text), Lines(row));
    var line := row[..|row| - 1];
    assert Lines(row)[1..] == [];
    assert Numbers([line]) == [seqNo] + Numbers([line][1..]);
    assert Highest([line], MaxIntact(text)) == Highest([line][1..], Raise(MaxIntact(text), line));
  }

  /** After its own row a handle accounts for the whole file again, unless its number wrapped. */
  lemma Resynced(text: string, env: Envelope)
    requires Terminated(text)
    ensures var hi := MaxIntact(text);
      var n := Claim(hi);
      var t := text + RowText(n, env);
      && hi < U64_LIMIT && Terminated(t)
      && MaxIntact(t) == (if hi + 1 < U64_LIMIT then n else hi)
      && (Accounts(t, n, |t|) <==> hi + 1 < U64_LIMIT)
  {
    hide RowText, Lines, Numbers, Terminated;
    MaxFits(text);
    AppendedRow(text, Claim(MaxIntact(text)), env);
    var t := text + RowText(Claim(MaxIntact(text)), env);
    assert t[..|t|] == t;
  }

  /** Whatever is appended, what a handle accounts for stays accounted for. */
  lemma {:induction false} GrownWindow(text: string, more: string, seqNo: nat, readTo: nat)
    requires Accounts(text, seqNo, readTo)
    ensures Accounts(text + more, seqNo, readTo)
  {
    assert (text + more)[..readTo] == text[..readTo];
  }

  // ---------- the handle ----------

  class Disk {
    /** The ledger file; an absent file and an empty one read alike. */
    var text: string

    constructor (text: string)
      ensures this.text == text
    {
      this.text := text;
    }
  }

  class Handle {
    const disk: Disk
    var seqNo: nat
    var unreadable: nat
    var readTo: nat

    /** What `open` establishes and `append` keeps while nobody else writes. */
    ghost predicate Synced()
      reads this, disk
    {
      Terminated(disk.text) && Accounts(disk.text, seqNo, readTo)
    }

    constructor Open(disk: Disk)
      ensures this.disk == disk && readTo == |disk.text| && seqNo == MaxIntact(disk.text)
      ensures unreadable == Damaged(Lines(disk.text))
      ensures Terminated(disk.text) ==> Synced()
    {
      var lines, hi, bad := Lines(disk.text), 0, 0;
      for i := 0 to |lines|
        invariant Highest(lines[i..], hi) == Highest(lines, 0)
        invariant bad + Damaged(lines[i..]) == Damaged(lines)
      {
        assert lines[i..][1..] == lines[i + 1..];
        if Trim(lines[i]) != "" {
          match RowSeq(lines[i])
          case Some(n) => hi := if hi < n then n else hi;
          case None => bad := bad + 1;
        }
      }
      this.disk := disk;
      seqNo, unreadable, readTo := hi, bad, |disk.text|;
      assert disk.text[..|disk.text|] == disk.text;
    }

    method MaxSeq() returns (hi: nat)
      ensures hi == Windowed(disk.text, seqNo, readTo)
    {
      var from := if |disk.text| >= readTo then readTo else 0;
      var tail := Lines(disk.text[from..]);
      hi := seqNo;
      for i := 0 to |tail|
        invariant Highest(tail[i..], hi) == Highest(tail, seqNo)
      {
        assert tail[i..][1..] == tail[i + 1..];
        hi := Raise(hi, tail[i]);
      }
    }

    /** `append` between `acquire` and `drop`. */
    method Append(env: Envelope) returns (n: nat)
      modifies this, disk
      ensures n == Claim(Windowed(old(disk.text), old(seqNo), old(readTo)))
      ensures seqNo == n && disk.text == old(disk.text) + RowText(n, env)
      ensures readTo == |disk.text| && unreadable == old(unreadable)
      ensures old(Synced()) ==>
        (Synced() <==> MaxIntact(old(disk.text)) + 1 < U64_LIMIT) && MaxIntact(old(disk.text)) < U64_LIMIT
      ensures old(Synced()) && MaxIntact(old(disk.text)) + 1 < U64_LIMIT ==>
        n == MaxIntact(old(disk.text)) + 1 == MaxIntact(disk.text)
      ensures old(Synced()) && MaxIntact(old(disk.text)) + 1 == U64_LIMIT ==>
        n == 0 && MaxIntact(disk.text) == MaxIntact(old(disk.text))
    {
      hide RowText, MaxIntact, Windowed, Lines, Numbers, Terminated, Accounts;
      WindowRefinesRescan(disk.text, seqNo, readTo);
      var hi := MaxSeq();
      if Synced() {
        Resynced(disk.text, env);
      }
      seqNo := (hi + 1) % U64_LIMIT;
      var row := RowFor(seqNo, env);
      disk.text := disk.text + row;
      readTo := |disk.text|;
      n := seqNo;
    }
  }

  /** Non-blank lines that no single writer can be held to. */
  function Damaged(lines: seq<string>): nat {
    if lines == [] then 0
    else (if Trim(lines[0]) != "" && RowSeq(lines[0]).None? then 1 else 0) + Damaged(lines[1..])
  }
}
