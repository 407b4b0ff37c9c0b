/**
 Holders, preemptions and joined questions over every run of the lease store:
 crates/caddis-bitynas/src/lease.rs, store.rs and resource.rs.
 */
module LeaseSafety {
  import opened Wrappers
  import opened Lease
  import opened LeaseOps
  import opened LeaseRuns

  // ---------- how a lease can change ----------

  /** The row that took a slot from a stale holder, carrying the record that was stale. */
  predicate Evicts(row: Row, slot: string, held: Record, now: Utc) {
    row.Reclaim? && row.slot == slot && row.previous == held && row.at == now && row.cause == CAUSE_TTL
    && held.Stale(now)
  }

  /** What one event can do to a lease held before it, with the rows it journaled. */
  ghost predicate Fate(live: Index, op: Op, rows: seq<Row>, after: Index, slot: string)
    requires slot in live
  {
    var held := live[slot];
    || (slot in after && after[slot] == held)
    || (op.HeartbeatOp? && op.slot == slot && op.owner == held.Holder()
        && slot in after && after[slot] == held.(heartbeat := Stamp(op.now)))
    || (op.ReleaseOp? && op.slot == slot && op.owner == held.Holder() && slot !in after)
    || (exists row :: row in rows && Evicts(row, slot, held, Judge(op)))
  }

  lemma FreedFate(live: Index, slots: seq<string>, utc: Utc, slot: string)
    requires slot in live && forall k :: k in slots ==> k in live && live[k].Stale(utc)
    ensures Fate(live, SweepOp(utc), ReclaimRows(live, slots, utc), Without(live, slots), slot)
  {
    hide AsI64;
    var rows := ReclaimRows(live, slots, utc);
    if slot in slots {
      var i :| 0 <= i < |slots| && slots[i] == slot;
      assert rows[i] in rows && Evicts(rows[i], slot, live[slot], utc);
    }
  }

  lemma SweepFate(live: Index, utc: Utc, kept: nat, slot: string)
    requires Keyed(live) && slot in live
    ensures var op := SweepOp(utc); var rows := Cut(RowsOf(live, op), kept);
      Fate(live, op, rows, Replay(live, rows), slot)
  {
    var slots := StaleSlots(live, utc);
    hide Fate, Replay, StaleSlots, ReclaimRows, Without;
    var n := if kept <= |slots| then kept else |slots|;
    assert slots[..|slots|] == slots;
    ReclaimsTaken(live, slots, utc, n);
    forall k | k in slots[..n] ensures k in live && live[k].Stale(utc) {
      assert k in slots;
    }
    ReplayReclaims(live, live, slots[..n], utc);
    FreedFate(live, slots[..n], utc, slot);
  }

  lemma ClaimFate(live: Index, op: Op, rows: seq<Row>, slot: string)
    requires op.ClaimOp? && slot in live && rows <= RowsOf(live, op)
    ensures Fate(live, op, rows, Replay(live, rows), slot)
  {
    var d := Decide(live, op);
    if |rows| > 0 {
      assert d.Free? || (d.Preempt? && SlotName(op.resource, op.id) in live
        && d.held == live[SlotName(op.resource, op.id)] && d.held.Stale(Stamp(op.now)));
      hide Decide, SlotName;
      ReplayPair(live, rows[0], rows[|rows| - 1]);
      assert rows == [rows[0]] || rows == [rows[0], rows[1]];
      if d.Preempt? && slot == SlotName(op.resource, op.id) {
        assert rows[0] in rows && Evicts(rows[0], slot, live[slot], Stamp(op.now));
      }
    } else {
      assert Replay(live, rows) == live;
    }
  }

  lemma OwnFate(live: Index, op: Op, rows: seq<Row>, slot: string)
    requires op.ReleaseOp? || op.HeartbeatOp? || op.EventsOp?
    requires slot in live && rows <= RowsOf(live, op)
    ensures Fate(live, op, rows, Replay(live, rows), slot)
  {
    if |rows| > 0 {
      ReplayPair(live, rows[0], rows[0]);
      assert rows == [rows[0]];
    } else {
      assert Replay(live, rows) == live;
    }
  }

  lemma OperationFate(live: Index, op: Op, kept: nat, slot: string)
    requires Keyed(live) && slot in live
    ensures var rows := Cut(RowsOf(live, op), kept); Fate(live, op, rows, Replay(live, rows), slot)
  {
    hide RowsOf, Fate, Replay;
    match op
    case SweepOp(utc) => SweepFate(live, utc, kept, slot);
    case ClaimOp(_, _, _, _, _, _, _) => ClaimFate(live, op, Cut(RowsOf(live, op), kept), slot);
    case _ => OwnFate(live, op, Cut(RowsOf(live, op), kept), slot);
  }

  /** The rows an event adds. */
  ghost function Added(s: State, e: Event): seq<Row> {
    if e.Done? then RowsOf(s.index, e.op) else Cut(RowsOf(s.index, e.op), e.kept)
  }

  lemma {:induction false} EventFate(s: State, e: Event, slot: string)
    requires Consistent(s) && slot in s.index
    ensures Next(s, e).rows == s.rows + Added(s, e)
    ensures Fate(s.index, e.op, Added(s, e), Next(s, e).index, slot)
  {
    hide RowsOf, IndexAfter, Fate;
    FoldKeyed(s.rows);
    IndexReplays(s.index, e.op);
    var rows := RowsOf(s.index, e.op);
    assert Cut(rows, |rows|) == rows;
    OperationFate(s.index, e.op, if e.Done? then |rows| else e.kept, slot);
    ReplayAppend(map[], s.rows, Added(s, e));
  }

  /** The owner gave the slot up somewhere in the run. */
  predicate GivesUp(es: seq<Event>, slot: string, owner: Owner) {
    exists i :: 0 <= i < |es| && es[i].op.ReleaseOp? && es[i].op.slot == slot && es[i].op.owner == owner
  }

  /** A reclaim row of the slot whose record was the owner's, and stale by the row's own time. */
  predicate Evicted(rows: seq<Row>, slot: string, owner: Owner) {
    exists row :: row in rows && row.Reclaim? && row.previous.Holder() == owner
      && Evicts(row, slot, row.previous, row.at)
  }

  /**
   Any change of holder, over any run with crashes anywhere, is preceded by the holder's release or
   by a reclaim row that carries the holder's stale record.
   */
  lemma {:induction false} HolderChange(s: State, es: seq<Event>, slot: string, owner: Owner)
    requires Consistent(s) && HeldBy(s.index, slot, owner) && !HeldBy(After(s, es).index, slot, owner)
    ensures s.rows <= After(s, es).rows
    ensures GivesUp(es, slot, owner) || Evicted(After(s, es).rows[|s.rows|..], slot, owner)
    decreases |es|
  {
    hide Next, RowsOf;
    IndexIsFold(s, es);
    var s1, t := Next(s, es[0]), After(s, es);
    NextConsistent(s, es[0]);
    IndexIsFold(s1, es[1..]);
    EventFate(s, es[0], slot);
    var added := Added(s, es[0]);
    assert t.rows[|s.rows|..] == added + t.rows[|s1.rows|..];
    if HeldBy(s1.index, slot, owner) {
      HolderChange(s1, es[1..], slot, owner);
      if GivesUp(es[1..], slot, owner) {
        var i :| 0 <= i < |es[1..]| && es[1..][i].op.ReleaseOp? && es[1..][i].op.slot == slot
          && es[1..][i].op.owner == owner;
        assert es[i + 1] == es[1..][i];
      } else {
        var row :| row in t.rows[|s1.rows|..] && row.Reclaim? && row.previous.Holder() == owner
          && Evicts(row, slot, row.previous, row.at);
        assert row in t.rows[|s.rows|..];
      }
    } else if !es[0].op.ReleaseOp? {
      var row :| row in added && Evicts(row, slot, s.index[slot], Judge(es[0].op));
      assert row in t.rows[|s.rows|..];
    }
  }

  /**
   What a claim's answer means. Claimed: the slot was free or its holder stale, and the index now files
   under it the lease returned, the claimer's, with its type's `ttl` counted from the minting. Busy and
   Join name a lease that is live, the slot's own or one on the same question, and change nothing.
   */
  lemma {:induction false} ClaimLaw(s: State, op: Op)
    requires Consistent(s) && op.ClaimOp?
    ensures var slot, now, t := SlotName(op.resource, op.id), Stamp(op.now), Step(s, op);
      match Answer(s, op)
      case Claimed(r) =>
        && (slot in s.index ==> s.index[slot].Stale(now))
        && t.index == s.index[slot := r]
        && r.slot == slot && r.Holder() == op.owner && r.ttl == Ttl(op.resource) && r.question == op.hash
        && (forall later :: r.Stale(Stamp(later)) <==> later - op.mint > Ttl(op.resource))
      case Busy(holder) => slot in s.index && holder == s.index[slot] && !holder.Stale(now) && t == s
      case Join(existing) => existing in s.index.Values && op.hash.Some? && Consults(existing, op.hash.value, now)
        && t == s
      case answer => answer.Panic? && t == s && !Claimable(op.resource, op.id, op.lane, op.hash)
  {
    hide FindActive, Claimable, TypeOf, Consistent, SlotName;
    assert s.rows + [] == s.rows;
  }

  // ---------- a fed lease is kept ----------

  /** The clock after an operation that began no earlier than `clock`; `None` if it ran backwards. */
  function Tick(op: Op, clock: int): Option<int> {
    match op
    case ClaimOp(_, _, _, _, _, now, mint) => if clock <= now <= mint then Some(mint) else None
    case ReleaseOp(_, _, now) => if clock <= now then Some(now) else None
    case HeartbeatOp(_, _, now) => if clock <= now then Some(now) else None
    case SweepOp(utc) => if utc.Garbled? then Some(clock) else if clock <= utc.sec then Some(utc.sec) else None
    case EventsOp => Some(clock)
  }

  predicate Monotone(es: seq<Event>, clock: int)
    decreases |es|
  {
    es == [] || (Tick(es[0].op, clock).Some? && Monotone(es[1..], Tick(es[0].op, clock).value))
  }

  predicate Beats(e: Event, slot: string, owner: Owner) {
    e.Done? && e.op.HeartbeatOp? && e.op.slot == slot && e.op.owner == owner
  }

  /** The owner's completed heartbeats, from one at `last` to the end of the run, are at most `ttl` apart. */
  predicate Fed(es: seq<Event>, clock: int, slot: string, owner: Owner, last: int, ttl: int)
    requires Monotone(es, clock)
    decreases |es|
  {
    if es == [] then clock - last <= ttl
    else
      var next := Tick(es[0].op, clock).value;
      if Beats(es[0], slot, owner) then next - last <= ttl && Fed(es[1..], next, slot, owner, next, ttl)
      else Fed(es[1..], next, slot, owner, last, ttl)
  }

  lemma {:induction false} FedNow(es: seq<Event>, clock: int, slot: string, owner: Owner, last: int, ttl: int)
    requires Monotone(es, clock) && Fed(es, clock, slot, owner, last, ttl)
    ensures clock - last <= ttl
    decreases |es|
  {
    if es != [] && !Beats(es[0], slot, owner) {
      FedNow(es[1..], Tick(es[0].op, clock).value, slot, owner, last, ttl);
    }
  }

  /** Held by the owner after every event of the run, and at its start. */
  ghost predicate HeldThroughout(s: State, es: seq<Event>, slot: string, owner: Owner)
    decreases |es|
  {
    HeldBy(s.index, slot, owner) && (es != [] ==> HeldThroughout(Next(s, es[0]), es[1..], slot, owner))
  }

  /** The lease as the owner knows it: its own, and no older than the last heartbeat it saw complete. */
  predicate Fresh(live: Index, slot: string, owner: Owner, last: int, ttl: int) {
    HeldBy(live, slot, owner) && live[slot].heartbeat.Stamp? && live[slot].heartbeat.sec >= last
    && AsI64(live[slot].ttl) == ttl
  }

  /** A lease that is not stale, nor released by its owner, is refreshed if anything. */
  lemma Outlives(live: Index, op: Op, rows: seq<Row>, after: Index, slot: string)
    requires slot in live && Fate(live, op, rows, after, slot) && !live[slot].Stale(Judge(op))
    requires !(op.ReleaseOp? && op.slot == slot && op.owner == live[slot].Holder())
    ensures slot in after
    ensures after[slot] == live[slot] || (op.HeartbeatOp? && after[slot] == live[slot].(heartbeat := Stamp(op.now)))
  {
  }

  lemma BeatLands(s: State, e: Event, slot: string, owner: Owner)
    requires Beats(e, slot, owner) && HeldBy(s.index, slot, owner)
    ensures Next(s, e).index == s.index[slot := s.index[slot].(heartbeat := Stamp(e.op.now))]
  {
  }

  lemma FedStep(s: State, e: Event, clock: int, slot: string, owner: Owner, last: int, ttl: int)
    requires Consistent(s) && Fresh(s.index, slot, owner, last, ttl)
    requires Tick(e.op, clock).Some? && Tick(e.op, clock).value - last <= ttl
    requires !GivesUp([e], slot, owner) && clock >= last
    ensures Fresh(Next(s, e).index, slot, owner, if Beats(e, slot, owner) then e.op.now else last, ttl)
  {
    EventFate(s, e, slot);
    hide Next, Added, Consistent, AsI64, Fate;
    NotStale(s.index[slot], e.op, clock, last, ttl);
    assert !(e.op.ReleaseOp? && e.op.slot == slot && e.op.owner == owner) by {
      assert [e][0] == e;
    }
    if Beats(e, slot, owner) {
      BeatLands(s, e, slot, owner);
    } else {
      Outlives(s.index, e.op, Added(s, e), Next(s, e).index, slot);
      hide GivesUp, Judge;
      var after := Next(s, e).index[slot];
      assert after.Holder() == owner && after.ttl == s.index[slot].ttl;
    }
  }

  /** Judged before its `ttl` has passed since a heartbeat no older than `last`, a lease is not stale. */
  lemma NotStale(r: Record, op: Op, clock: int, last: int, ttl: int)
    requires r.heartbeat.Stamp? && r.heartbeat.sec >= last && AsI64(r.ttl) == ttl
    requires Tick(op, clock).Some? && Tick(op, clock).value - last <= ttl
    ensures !r.Stale(Judge(op))
  {
    hide AsI64;
  }

  /**
   Under a monotone clock, a holder whose heartbeats come at most its `ttl` apart keeps its slot in
   every run in which it does not release it itself, whatever else is claimed, swept or cut short.
   */
  lemma {:induction false} FedLeaseIsKept(s: State, es: seq<Event>, clock: int, slot: string, owner: Owner,
      last: int, ttl: int)
    requires Consistent(s) && Fresh(s.index, slot, owner, last, ttl) && last <= clock
    requires Monotone(es, clock) && Fed(es, clock, slot, owner, last, ttl) && !GivesUp(es, slot, owner)
    ensures HeldThroughout(s, es, slot, owner)
    decreases |es|
  {
    hide Next, Consistent;
    if es != [] {
      var e, rest, next := es[0], es[1..], Tick(es[0].op, clock).value;
      var beat := if Beats(e, slot, owner) then next else last;
      FedNow(rest, next, slot, owner, beat, ttl);
      assert !GivesUp([e], slot, owner) by {
        assert forall i :: 0 <= i < |[e]| ==> [e][i] == es[i];
      }
      assert !GivesUp(rest, slot, owner) by {
        assert forall i :: 0 <= i < |rest| ==> rest[i] == es[i + 1];
      }
      NextConsistent(s, e);
      FedStep(s, e, clock, slot, owner, last, ttl);
      FedLeaseIsKept(Next(s, e), rest, next, slot, owner, beat, ttl);
    }
  }

  // ---------- preemptions are conserved ----------

  function Given(r: Reply): seq<Preemption> {
    match r
    case Freed(events) => events
    case Drained(events) => events
    case _ => []
  }

  /** Every preemption the answers of a run carried, in order. */
  ghost function Told(s: State, es: seq<Event>): seq<Preemption>
    decreases |es|
  {
    if es == [] then [] else Given(Answer(s, es[0].op)) + Told(Next(s, es[0]), es[1..])
  }

  lemma ReportsPair(a: Row, b: Row)
    ensures Reports([a]) == if a.Reclaim? then [Report(a)] else []
    ensures Reports([a, b]) == Reports([a]) + Reports([b])
  {
    assert [a][..0] == [] && [a, b][..1] == [a] && [b][..0] == [];
  }

  lemma ReportsNothing()
    ensures Reports([]) == []
  {
  }

  lemma Balance<T(!new)>(a: seq<T>, b: seq<T>, p: seq<T>, q: seq<T>, r: seq<T>, g: seq<T>, h: seq<T>)
    requires multiset(a) + multiset(p) == multiset(g) + multiset(q)
    requires multiset(b) + multiset(q) == multiset(h) + multiset(r)
    ensures multiset(a + b) + multiset(p) == multiset(g + h) + multiset(r)
  {
    forall x: T
      ensures (multiset(a + b) + multiset(p))[x] == (multiset(g + h) + multiset(r))[x]
    {
      assert (multiset(a) + multiset(p))[x] == (multiset(g) + multiset(q))[x];
      assert (multiset(b) + multiset(q))[x] == (multiset(h) + multiset(r))[x];
    }
  }

  lemma ClaimConserves(s: State, op: Op)
    requires op.ClaimOp?
    ensures multiset(Reports(RowsOf(s.index, op))) + multiset(s.pending)
         == multiset(Given(Answer(s, op))) + multiset(Step(s, op).pending)
  {
    hide Decide, Reports, Minted, SlotName, IndexAfter;
    ReportsNothing();
    var rows := RowsOf(s.index, op);
    if Decide(s.index, op).Preempt? {
      ReportsPair(rows[0], rows[1]);
      ReportsPair(rows[1], rows[1]);
      assert rows == [rows[0], rows[1]];
      assert Reports(rows) == [Report(rows[0])];
    } else if |rows| > 0 {
      ReportsPair(rows[0], rows[0]);
      assert rows == [rows[0]];
    }
  }

  lemma StepConserves(s: State, op: Op)
    ensures multiset(Reports(RowsOf(s.index, op))) + multiset(s.pending)
         == multiset(Given(Answer(s, op))) + multiset(Step(s, op).pending)
  {
    if op.ClaimOp? {
      ClaimConserves(s, op);
    } else if op.ReleaseOp? || op.HeartbeatOp? {
      hide Reports;
      ReportsNothing();
      var rows := RowsOf(s.index, op);
      if |rows| > 0 {
        ReportsPair(rows[0], rows[0]);
        assert rows == [rows[0]];
      }
    } else {
      hide Reports;
      ReportsNothing();
    }
  }

  /**
   Over the life of one store the reclaim rows it journals are, counted with multiplicity, the
   preemptions it told of by a sweep or a drain together with those still pending.
   */
  lemma {:induction false} PreemptionsConserved(s: State, es: seq<Event>)
    requires forall i :: 0 <= i < |es| ==> es[i].Done?
    ensures s.rows <= After(s, es).rows
    ensures multiset(Reports(After(s, es).rows[|s.rows|..])) + multiset(s.pending)
         == multiset(Told(s, es)) + multiset(After(s, es).pending)
    decreases |es|
  {
    hide RowsOf, IndexAfter, PendingAfter, Answer, Given, Reports;
    if es == [] {
      ReportsNothing();
    } else {
      var op, s1, t := es[0].op, Next(s, es[0]), After(s, es);
      assert s1 == Step(s, op);
      StepConserves(s, op);
      hide Step;
      PreemptionsConserved(s1, es[1..]);
      var added, later := RowsOf(s.index, op), t.rows[|s1.rows|..];
      assert t.rows[|s.rows|..] == added + later;
      ReportsAppend(added, later);
      Balance(Reports(added), Reports(later), s.pending, s1.pending, t.pending,
        Given(Answer(s, op)), Told(s1, es[1..]));
    }
  }
}
