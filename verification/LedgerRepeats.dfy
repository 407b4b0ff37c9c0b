/**
 Numbers issued twice: over every run, guarded or not, when a number is a repeat and when a handle jumps
 over a row. crates/caddis-core/src/ledger.rs, its append as in LedgerProtocol.dfy.
 */
module LedgerRepeats {
  import opened Wrappers
  import opened Text
  import opened LedgerRow
  import opened Ledger
  import opened LedgerProtocol

  // ---------- what every run keeps ----------

  /** Number and offset never run ahead of the file, nor fall behind its first maximum `m`. */
  ghost predicate Loose(text: string, q: Process, m: nat) {
    match q.pc
    case Ready => m < q.seqNo <= MaxIntact(text) + 1
    case Wrote => m < q.seqNo <= MaxIntact(text)
    case _ => q.readTo <= |text| && Terminated(text[..q.readTo]) && m <= q.seqNo <= MaxIntact(text[..q.readTo])
  }

  /** The numbers issued fill the space between the first maximum and the present one. */
  ghost predicate Filled(s: State, m: nat) {
    && m <= MaxIntact(s.text)
    && (forall n :: n in s.issued <==> m < n <= MaxIntact(s.text))
    && (forall p :: p in s.procs ==> Loose(s.text, s.procs[p], m))
  }

  /** A claim from here would not wrap. */
  ghost predicate Spare(s: State) {
    MaxIntact(s.text) + 1 < U64_LIMIT
  }

  ghost predicate Record(s: State, text0: string) {
    && Terminated(s.text)
    && Numbers(Lines(s.text)) == Numbers(Lines(text0)) + s.issued
    && (forall p :: In(s, p, Ready) ==> s.procs[p].seqNo < U64_LIMIT)
    && (Spare(s) ==> Filled(s, MaxIntact(text0)))
  }

  /** What a step that does not write leaves of the process that takes it. */
  lemma QuietLoose(s: State, e: Event, m: nat)
    requires Enabled(s, e) && !e.Write? && Spare(s) && Filled(s, m) && Terminated(s.text)
    ensures e.p in Next(s, e).procs ==> Loose(s.text, Next(s, e).procs[e.p], m)
  {
    if e.ReadMax? {
      ReadLoose(s, e.p, m);
    } else if e.Open? || e.Stat? {
      MeasuredLoose(s, e, m);
    } else {
      assert e.p in s.procs && Loose(s.text, s.procs[e.p], m);
      hide MaxIntact, Terminated, Windowed;
    }
  }

  lemma ReadLoose(s: State, p: Pid, m: nat)
    requires Enabled(s, ReadMax(p)) && Spare(s) && Filled(s, m)
    ensures Loose(s.text, Next(s, ReadMax(p)).procs[p], m)
  {
    assert Loose(s.text, s.procs[p], m);
    hide MaxIntact, Terminated, Windowed, Filled, Loose, Claim;
    LooseClaim(s.text, s.procs[p], m);
  }

  lemma LooseClaim(text: string, q: Process, m: nat)
    requires q.pc == Locked && Loose(text, q, m) && MaxIntact(text) + 1 < U64_LIMIT
    ensures Loose(text, q.(pc := Ready, seqNo := Claim(Windowed(text, q.seqNo, q.readTo))), m)
  {
    hide MaxIntact, Terminated, Windowed, Claim;
    WindowAtMost(text, q.seqNo, q.readTo);
    NoWrap(Windowed(text, q.seqNo, q.readTo));
  }

  lemma NoWrap(hi: nat)
    requires hi + 1 < U64_LIMIT
    ensures Claim(hi) == hi + 1
  {
  }

  lemma MeasuredLoose(s: State, e: Event, m: nat)
    requires Enabled(s, e) && (e.Open? || e.Stat?) && Filled(s, m) && Terminated(s.text)
    ensures Loose(s.text, Next(s, e).procs[e.p], m)
  {
    assert e.Stat? ==> Loose(s.text, s.procs[e.p], m);
    hide MaxIntact, Terminated, Windowed;
    LooseWhole(s.text, Next(s, e).procs[e.p], m);
  }

  lemma LooseWhole(text: string, q: Process, m: nat)
    requires !q.pc.Ready? && !q.pc.Wrote? && Terminated(text) && q.readTo == |text| && m <= q.seqNo <= MaxIntact(text)
    ensures Loose(text, q, m)
  {
    hide MaxIntact, Terminated;
    assert text[..|text|] == text;
  }

  /** The windowed read lies between the carried number and the maximum of the file. */
  lemma WindowAtMost(text: string, seqNo: nat, readTo: nat)
    requires readTo <= |text| && Terminated(text[..readTo]) && seqNo <= MaxIntact(text[..readTo])
    ensures seqNo <= Windowed(text, seqNo, readTo) <= MaxIntact(text)
  {
    var a, b := text[..readTo], text[readTo..];
    assert text == a + b;
    LinesAppend(a, b);
    hide Lines, Terminated;
    HighestAppend(Lines(a), Lines(b), 0);
    HighestFloor(Lines(b), seqNo);
    HighestFloor(Lines(b), MaxIntact(a));
  }

  lemma GrownMax(text: string, more: string)
    requires Terminated(text)
    ensures MaxIntact(text) <= MaxIntact(text + more)
  {
    LinesAppend(text, more);
    hide Lines, Terminated;
    HighestAppend(Lines(text), Lines(more), 0);
  }

  lemma QuietKeeps(s: State, e: Event, text0: string)
    requires Record(s, text0) && Enabled(s, e) && !e.Write?
    ensures Record(Next(s, e), text0)
  {
    hide MaxIntact, Lines, Numbers, Terminated, Loose, Windowed;
    var t := Next(s, e);
    assert t.text == s.text && t.issued == s.issued;
    if Spare(s) {
      forall r | r in t.procs ensures Loose(t.text, t.procs[r], MaxIntact(text0)) {
        if r == e.p {
          QuietLoose(s, e, MaxIntact(text0));
        } else {
          assert Loose(s.text, s.procs[r], MaxIntact(text0));
        }
      }
    }
  }

  lemma WriteKeeps(s: State, p: Pid, env: Envelope, text0: string)
    requires Record(s, text0) && Enabled(s, Write(p, env))
    ensures Record(Next(s, Write(p, env)), text0)
  {
    hide MaxIntact, Lines, Numbers, Terminated, Loose, RowText;
    var t, n := Next(s, Write(p, env)), s.procs[p].seqNo;
    AppendedRow(s.text, n, env);
    assert Numbers(Lines(text0)) + s.issued + [n] == Numbers(Lines(text0)) + t.issued;
    if Spare(t) {
      WrittenFilled(s, p, env, MaxIntact(text0));
    }
  }

  lemma WrittenFilled(s: State, p: Pid, env: Envelope, m: nat)
    requires Enabled(s, Write(p, env)) && Terminated(s.text) && s.procs[p].seqNo < U64_LIMIT && Filled(s, m)
    ensures Filled(Next(s, Write(p, env)), m)
  {
    hide MaxIntact, Lines, Numbers, Terminated, RowText;
    var t, n := Next(s, Write(p, env)), s.procs[p].seqNo;
    AppendedRow(s.text, n, env);
    assert Loose(s.text, s.procs[p], m);
    forall r | r in t.procs ensures Loose(t.text, t.procs[r], m) {
      if r != p {
        assert Loose(s.text, s.procs[r], m);
        assert s.procs[r].readTo <= |s.text| ==> t.text[..s.procs[r].readTo] == s.text[..s.procs[r].readTo];
      }
    }
  }

  /** Every step keeps it, inside the guard or out of it. */
  lemma {:induction false} AnyStep(s: State, e: Event, text0: string)
    requires Record(s, text0) && Enabled(s, e)
    ensures Record(Next(s, e), text0)
  {
    hide Record, Next, Enabled;
    if e.Write? {
      WriteKeeps(s, e.p, e.env, text0);
    } else {
      QuietKeeps(s, e, text0);
    }
  }

  lemma {:induction false} AnyRun(s: State, es: seq<Event>, text0: string)
    requires Record(s, text0) && Run(s, es).Some?
    ensures Record(Run(s, es).value, text0)
    decreases |es|
  {
    hide Record, Next, Enabled;
    if es != [] {
      AnyStep(s, es[0], text0);
      AnyRun(Next(s, es[0]), es[1..], text0);
    }
  }

  lemma InitialRecord(s: State)
    requires Initial(s)
    ensures Record(s, s.text)
  {
    hide MaxIntact, Lines, Numbers, Terminated;
  }

  // ---------- when a number is a repeat ----------

  /** None of the events is the process's. */
  ghost predicate Still(es: seq<Event>, p: Pid) {
    forall i :: 0 <= i < |es| ==> es[i].p != p
  }

  /** A process that takes no step keeps its state, and the file and the numbers only grow. */
  lemma {:induction false} StillRun(s: State, es: seq<Event>, p: Pid)
    requires Run(s, es).Some? && Still(es, p) && p in s.procs
    ensures var t := Run(s, es).value; p in t.procs && t.procs[p] == s.procs[p] && s.issued <= t.issued
    decreases |es|
  {
    hide MaxIntact, Windowed, RowText;
    if es != [] {
      StillRun(Next(s, es[0]), es[1..], p);
    }
  }

  lemma MaxOfNumbers(text: string)
    ensures forall n :: n in Numbers(Lines(text)) ==> n <= MaxIntact(text)
    ensures MaxIntact(text) == 0 || MaxIntact(text) in Numbers(Lines(text))
  {
  }

  /** What is in the file at `t` beyond `a` is what was issued between. */
  lemma Between(a: State, t: State, text0: string)
    requires Record(a, text0) && Record(t, text0) && a.issued <= t.issued
    ensures Numbers(Lines(t.text)) == Numbers(Lines(a.text)) + t.issued[|a.issued|..]
  {
    hide MaxIntact, Lines, Numbers, Terminated, Filled;
    assert t.issued == a.issued + t.issued[|a.issued|..];
  }

  /**
   Over every run whatever: let a process read the maximum in `a` and be about to write the number it
   then claimed in `t`, the counter not being at its end. The number is a repeat if and only if it was
   not above the file's maximum when it was claimed, or one at least as large was written since.
   */
  lemma {:induction false} RepeatLaw(s: State, before: seq<Event>, p: Pid, since: seq<Event>)
    requires Initial(s) && Run(s, before).Some?
    requires var a := Run(s, before).value;
      Enabled(a, ReadMax(p)) && Run(Next(a, ReadMax(p)), since).Some? && Still(since, p)
    requires var t := Run(Next(Run(s, before).value, ReadMax(p)), since).value; Spare(t)
    ensures var a := Run(s, before).value;
      var t := Run(Next(a, ReadMax(p)), since).value;
      && In(t, p, Ready) && a.issued <= t.issued
      && var n := t.procs[p].seqNo;
      && (n in Numbers(Lines(t.text)) <==> n in t.issued)
      && (n in t.issued <==> n <= MaxIntact(a.text) || exists k :: |a.issued| <= k < |t.issued| && t.issued[k] >= n)
  {
    var a := Run(s, before).value;
    var b := Next(a, ReadMax(p));
    var t := Run(b, since).value;
    InitialRecord(s);
    AnyRun(s, before, s.text);
    AnyStep(a, ReadMax(p), s.text);
    AnyRun(b, since, s.text);
    StillRun(b, since, p);
    RepeatsAre(a, t, p, s.text);
  }

  lemma RepeatsAre(a: State, t: State, p: Pid, text0: string)
    requires Record(a, text0) && Record(t, text0) && a.issued <= t.issued && In(t, p, Ready) && Spare(t)
    ensures var n := t.procs[p].seqNo;
      && (n in Numbers(Lines(t.text)) <==> n in t.issued)
      && (n in t.issued <==> n <= MaxIntact(a.text) || exists k :: |a.issued| <= k < |t.issued| && t.issued[k] >= n)
  {
    Between(a, t, text0);
    MaxOfNumbers(text0);
    MaxOfNumbers(a.text);
    MaxOfNumbers(t.text);
    hide MaxIntact, Lines, Numbers, Terminated;
    var n := t.procs[p].seqNo;
    assert Loose(t.text, t.procs[p], MaxIntact(text0));
    var since := t.issued[|a.issued|..];
    if n <= MaxIntact(t.text) {
      var top := MaxIntact(t.text);
      assert top in Numbers(Lines(t.text));
      if top !in Numbers(Lines(a.text)) {
        var k :| 0 <= k < |since| && since[k] == top;
        assert t.issued[|a.issued| + k] == top;
      }
    }
    forall k | |a.issued| <= k < |t.issued| && t.issued[k] >= n ensures n <= MaxIntact(t.text) {
      assert t.issued[k] in t.issued;
    }
    if MaxIntact(a.text) > 0 {
      assert MaxIntact(a.text) in Numbers(Lines(t.text));
    }
  }

  // ---------- when a handle jumps over a row ----------

  /** The process does nothing but write. */
  ghost predicate OnlyWrites(es: seq<Event>, p: Pid) {
    forall i :: 0 <= i < |es| && es[i].p == p ==> es[i].Write?
  }

  lemma {:induction false} WrittenSince(s: State, es: seq<Event>, p: Pid)
    requires Run(s, es).Some? && OnlyWrites(es, p) && In(s, p, Ready) && In(Run(s, es).value, p, Wrote)
    ensures var t := Run(s, es).value;
      t.procs[p].seqNo == s.procs[p].seqNo && s.issued <= t.issued && s.procs[p].seqNo in t.issued[|s.issued|..]
    decreases |es|
  {
    hide MaxIntact, Windowed, RowText;
    if es != [] {
      var s1, rest := Next(s, es[0]), es[1..];
      if es[0].p == p {
        DoneWriting(s1, rest, p);
        assert s1.issued[|s.issued|] == s.procs[p].seqNo;
        var t := Run(s, es).value;
        assert t.issued[|s.issued|] == s.procs[p].seqNo && t.issued[|s.issued|] in t.issued[|s.issued|..];
      } else {
        WrittenSince(s1, rest, p);
        var t := Run(s, es).value;
        assert t.issued[|s1.issued|..] <= t.issued[|s.issued|..] || |s1.issued| > |s.issued|;
        var k :| 0 <= k < |t.issued[|s1.issued|..]| && t.issued[|s1.issued|..][k] == s.procs[p].seqNo;
        assert t.issued[|s.issued|..][k + |s1.issued| - |s.issued|] == s.procs[p].seqNo;
      }
    }
  }

  lemma {:induction false} DoneWriting(s: State, es: seq<Event>, p: Pid)
    requires Run(s, es).Some? && OnlyWrites(es, p) && In(s, p, Wrote)
    ensures var t := Run(s, es).value; p in t.procs && t.procs[p] == s.procs[p] && s.issued <= t.issued
    decreases |es|
  {
    hide MaxIntact, Windowed, RowText;
    if es != [] {
      DoneWriting(Next(s, es[0]), es[1..], p);
    }
  }

  /**
   Over every run whatever: let a process read the maximum in `a`, and write and measure the file with
   the others' steps between. It then accounts for the whole file if and only if its number was not below
   the file's maximum when it was claimed and no larger one was written since.
   */
  lemma {:induction false} StatLaw(s: State, before: seq<Event>, p: Pid, since: seq<Event>)
    requires Initial(s) && Run(s, before).Some?
    requires var a := Run(s, before).value;
      && Enabled(a, ReadMax(p)) && Run(Next(a, ReadMax(p)), since).Some? && OnlyWrites(since, p)
      && Enabled(Run(Next(a, ReadMax(p)), since).value, Stat(p))
    ensures var a := Run(s, before).value;
      var u := Run(Next(a, ReadMax(p)), since).value;
      var q := Next(u, Stat(p)).procs[p];
      && a.issued <= u.issued
      && (Accounts(u.text, q.seqNo, q.readTo) <==>
            q.seqNo >= MaxIntact(a.text) && forall k :: |a.issued| <= k < |u.issued| ==> u.issued[k] <= q.seqNo)
  {
    var a := Run(s, before).value;
    var b := Next(a, ReadMax(p));
    var u := Run(b, since).value;
    InitialRecord(s);
    AnyRun(s, before, s.text);
    AnyStep(a, ReadMax(p), s.text);
    AnyRun(b, since, s.text);
    WrittenSince(b, since, p);
    AccountsIff(a, u, p, s.text);
  }

  lemma AccountsIff(a: State, u: State, p: Pid, text0: string)
    requires Record(a, text0) && Record(u, text0) && a.issued <= u.issued && In(u, p, Wrote)
    requires u.procs[p].seqNo in u.issued[|a.issued|..]
    ensures var n := u.procs[p].seqNo;
      Accounts(u.text, n, |u.text|) <==>
        n >= MaxIntact(a.text) && forall k :: |a.issued| <= k < |u.issued| ==> u.issued[k] <= n
  {
    Between(a, u, text0);
    MaxOfNumbers(a.text);
    MaxOfNumbers(u.text);
    assert u.text[..|u.text|] == u.text;
    hide MaxIntact, Lines, Numbers, Terminated, Filled;
    var n, since := u.procs[p].seqNo, u.issued[|a.issued|..];
    forall k | |a.issued| <= k < |u.issued| ensures u.issued[k] in Numbers(Lines(u.text)) {
      assert since[k - |a.issued|] == u.issued[k];
    }
    if MaxIntact(a.text) > 0 {
      assert MaxIntact(a.text) in Numbers(Lines(u.text));
    }
    if MaxIntact(u.text) in since {
      var k :| 0 <= k < |since| && since[k] == MaxIntact(u.text);
      assert u.issued[|a.issued| + k] == MaxIntact(u.text);
    }
  }

  // ---------- a repeat with nobody in between ----------

  lemma Chain(s: State, es: seq<Event>, t: State, more: seq<Event>)
    requires Run(s, es) == Some(t)
    ensures Run(s, es + more) == Run(t, more)
  {
    RunJoins(s, es, more);
  }

  /** Both inside, one claims and is overtaken. */
  lemma Overtaken(s: State, p: Pid, q: Pid, env: Envelope) returns (t: State)
    requires p != q && In(s, p, Locked) && In(s, q, Locked) && s.text == ""
    requires s.procs[p].seqNo == s.procs[p].readTo == s.procs[q].seqNo == s.procs[q].readTo == 0
    ensures Run(s, [ReadMax(p), ReadMax(q), Write(q, env), Stat(q)]) == Some(t)
    ensures t.text == "" + RowText(1, env) && t.lock == s.lock && t.issued == s.issued + [1]
    ensures t.procs
      == s.procs[p := s.procs[p].(pc := Ready, seqNo := 1)]
        [q := s.procs[q].(pc := Leaving, seqNo := 1, readTo := |t.text|)]
  {
    hide RowText, Windowed, Run, MaxIntact;
    NothingToRead();
    var s2 := Next(Next(s, ReadMax(p)), ReadMax(q));
    assert In(s2, q, Ready) && s2.procs[q].seqNo == 1;
    t := Next(Next(s2, Write(q, env)), Stat(q));
    RunFour(s, ReadMax(p), ReadMax(q), Write(q, env), Stat(q));
  }

  /** A process without the lock comes back and claims the next number. */
  lemma ComesBack(s: State, q: Pid)
    requires In(s, q, Leaving) && !s.procs[q].owned && s.lock.Present?
    requires Accounts(s.text, s.procs[q].seqNo, s.procs[q].readTo) && MaxIntact(s.text) == 1
    ensures Run(s, [CheckToken(q), SeeHeld(q), Enter(q), ReadMax(q)])
      == Some(LedgerProtocol.Put(s, q, s.procs[q].(pc := Ready, seqNo := 2)))
  {
    hide Windowed, Run, MaxIntact, Terminated;
    WindowRefinesRescan(s.text, s.procs[q].seqNo, s.procs[q].readTo);
    var s3 := Next(Next(Next(s, CheckToken(q)), SeeHeld(q)), Enter(q));
    assert s3 == LedgerProtocol.Put(s, q, s.procs[q].(pc := Locked));
    assert Next(s3, ReadMax(q)) == LedgerProtocol.Put(s, q, s.procs[q].(pc := Ready, seqNo := 2));
    RunFour(s, CheckToken(q), SeeHeld(q), Enter(q), ReadMax(q));
  }

  /** The overtaken process writes, measures the file and leaves. */
  lemma JumpsOver(s: State, p: Pid, env: Envelope) returns (t: State)
    requires In(s, p, Ready) && s.procs[p].owned && s.lock == Present(s.procs[p].token, true)
    ensures Run(s, [Write(p, env), Stat(p)] + [CheckToken(p), Unlink(p)]) == Some(t)
    ensures t.text == s.text + RowText(s.procs[p].seqNo, env) && t.lock == Absent
    ensures t.issued == s.issued + [s.procs[p].seqNo]
    ensures t.procs == s.procs[p := s.procs[p].(pc := Idle, readTo := |t.text|)]
  {
    hide RowText, Run, MaxIntact, Windowed;
    var s2 := Next(Next(s, Write(p, env)), Stat(p));
    RunTwo(s, Write(p, env), Stat(p));
    t := LeaveOwn(s2, p);
    RunJoins(s, [Write(p, env), Stat(p)], [CheckToken(p), Unlink(p)]);
  }

  /** Under the lock and alone, it claims one more than the number it remembers. */
  lemma ClaimsAgain(s: State, p: Pid, env: Envelope) returns (t: State)
    requires In(s, p, Idle) && s.lock.Absent? && s.procs[p].readTo == |s.text| && s.procs[p].seqNo == 1
    ensures Run(s, [Create(p), PutToken(p, true), ReadMax(p), Write(p, env)]) == Some(t)
    ensures GuardedRun(s, [Create(p), PutToken(p, true), ReadMax(p), Write(p, env)])
    ensures t.issued == s.issued + [2]
  {
    hide RowText, Run, MaxIntact, Windowed, GuardedRun;
    var s2 := Next(Next(s, Create(p)), PutToken(p, true));
    assert s2.issued == s.issued;
    t := ClaimsTwo(s2, p, env);
    hide Next, Enabled;
    RunFour(s, Create(p), PutToken(p, true), ReadMax(p), Write(p, env));
    GuardedFour(s, Create(p), PutToken(p, true), ReadMax(p), Write(p, env));
  }

  lemma ClaimsTwo(s: State, p: Pid, env: Envelope) returns (t: State)
    requires In(s, p, Locked) && s.procs[p].seqNo == 1 && s.procs[p].readTo == |s.text|
    ensures Enabled(s, ReadMax(p)) && Enabled(Next(s, ReadMax(p)), Write(p, env))
    ensures t == Next(Next(s, ReadMax(p)), Write(p, env)) && t.issued == s.issued + [2]
  {
    EmptyWindow(s.text, 1);
    hide RowText, MaxIntact, Windowed;
    t := Next(Next(s, ReadMax(p)), Write(p, env));
  }

  lemma EmptyWindow(text: string, seqNo: nat)
    ensures Windowed(text, seqNo, |text|) == seqNo
  {
    assert text[|text|..] == "";
  }

  lemma GuardedFour(s: State, a: Event, b: Event, c: Event, d: Event)
    requires Enabled(s, a) && Enabled(Next(s, a), b)
    requires Enabled(Next(Next(s, a), b), c) && Enabled(Next(Next(Next(s, a), b), c), d)
    requires forall e :: e in [a, b, c, d] ==> !e.Break? && !e.Enter?
    ensures GuardedRun(s, [a, b, c, d])
  {
    hide Next, Enabled;
    assert a in [a, b, c, d] && b in [a, b, c, d] && c in [a, b, c, d] && d in [a, b, c, d];
    GuardedTwo(Next(Next(s, a), b), c, d);
    assert [a, b, c, d][1..] == [b, c, d] && [b, c, d][1..] == [c, d];
    assert GuardedRun(Next(s, a), [b, c, d]);
  }

  /** Two inside, one of them without the lock; the other claims one and is overtaken. */
  function Entering(b: Envelope): seq<Event> {
    [Open(1), Open(2)] + [Create(1), SeeHeld(2), Enter(2), PutToken(1, true)]
    + [ReadMax(1), ReadMax(2), Write(2, b), Stat(2)]
  }

  /** How a handle comes to jump over a row: it writes a number that another has passed. */
  function Overtaking(a: Envelope, b: Envelope): seq<Event> {
    Entering(b) + [CheckToken(2), SeeHeld(2), Enter(2), ReadMax(2)]
    + [Write(2, b), Crash(2)] + ([Write(1, a), Stat(1)] + [CheckToken(1), Unlink(1)])
  }

  lemma EnteredState(b: Envelope) returns (t: State)
    ensures Run(State("", Absent, map[], 0, []), Entering(b)) == Some(t)
    ensures t.text == "" + RowText(1, b) && t.lock == Present(0, true) && t.issued == [1]
    ensures t.procs == map[1 := Process(Ready, true, 0, 1, 0), 2 := Process(Leaving, false, 0, 1, |t.text|)]
  {
    hide RowText, Run, MaxIntact, Windowed, Next, Enabled;
    var s := State("", Absent, map[], 0, []);
    var es1 := [Open(1), Open(2)];
    var s1 := BothOpen();
    var s2 := BothEnter(s1);
    Chain(s, es1, s1, [Create(1), SeeHeld(2), Enter(2), PutToken(1, true)]);
    t := Overtaken(s2, 1, 2, b);
    Chain(s, es1 + [Create(1), SeeHeld(2), Enter(2), PutToken(1, true)], s2,
      [ReadMax(1), ReadMax(2), Write(2, b), Stat(2)]);
  }

  lemma OvertakenState(a: Envelope, b: Envelope) returns (t: State)
    ensures Run(State("", Absent, map[], 0, []), Overtaking(a, b)) == Some(t)
    ensures In(t, 1, Idle) && t.procs.Keys == {1} && t.lock.Absent? && t.issued == [1, 2, 1]
    ensures t.procs[1].readTo == |t.text| && t.procs[1].seqNo == 1
  {
    hide RowText, Run, MaxIntact, Windowed, Terminated, Lines, Numbers, Entering;
    var s := State("", Absent, map[], 0, []);
    var s3 := EnteredState(b);
    FirstRow(b);
    ComesBack(s3, 2);
    var s4 := LedgerProtocol.Put(s3, 2, s3.procs[2].(pc := Ready, seqNo := 2));
    Chain(s, Entering(b), s3, [CheckToken(2), SeeHeld(2), Enter(2), ReadMax(2)]);
    var es4 := Entering(b) + [CheckToken(2), SeeHeld(2), Enter(2), ReadMax(2)];
    var s5 := PassesBy(s4, 2, b);
    Chain(s, es4, s4, [Write(2, b), Crash(2)]);
    t := JumpsOver(s5, 1, a);
    Chain(s, es4 + [Write(2, b), Crash(2)], s5, [Write(1, a), Stat(1)] + [CheckToken(1), Unlink(1)]);
  }

  lemma PassesBy(s: State, q: Pid, env: Envelope) returns (t: State)
    requires In(s, q, Ready)
    ensures Run(s, [Write(q, env), Crash(q)]) == Some(t)
    ensures t.procs == s.procs - {q} && t.lock == s.lock && t.issued == s.issued + [s.procs[q].seqNo]
  {
    hide RowText, Run, MaxIntact, Windowed;
    t := Next(Next(s, Write(q, env)), Crash(q));
    RunTwo(s, Write(q, env), Crash(q));
  }

  lemma FirstRow(env: Envelope)
    ensures var t := "" + RowText(1, env); MaxIntact(t) == 1 && Accounts(t, 1, |t|)
  {
    NothingIssued();
    EmptyTerminated();
    hide RowText, Terminated, Lines, Numbers;
    AppendedRow("", 1, env);
    var t := "" + RowText(1, env);
    assert t[..|t|] == t;
    hide MaxIntact;
  }

  /**
   A jumped row costs more than the write that jumped it: later, alone, under the lock and with nobody's
   step in between, the handle reads the maximum, claims two, and two has long been issued.
   */
  lemma {:induction false} JumpedRowRepeats(a: Envelope, b: Envelope)
    ensures var s := State("", Absent, map[], 0, []);
      var es := [Create(1), PutToken(1, true), ReadMax(1), Write(1, a)];
      && Initial(s) && Run(s, Overtaking(a, b)).Some?
      && Run(s, Overtaking(a, b)).value.procs.Keys == {1} && GuardedRun(Run(s, Overtaking(a, b)).value, es)
      && Run(s, Overtaking(a, b) + es).Some? && Run(s, Overtaking(a, b) + es).value.issued == [1, 2, 1, 2]
  {
    hide RowText, Run, MaxIntact, Windowed, GuardedRun, Overtaking;
    var t := OvertakenState(a, b);
    var u := ClaimsAgain(t, 1, a);
    Chain(State("", Absent, map[], 0, []), Overtaking(a, b), t,
      [Create(1), PutToken(1, true), ReadMax(1), Write(1, a)]);
  }
}
