/**
 What every operation of the lease store answers, journals and leaves behind, as functions of the
 state before it: crates/caddis-bitynas/src/store.rs and the typed claim of resource.rs. The class
 of LeaseStore.dfy runs them step by step.
 */
module LeaseOps {
  import opened Wrappers
  import opened Text
  import opened BTree
  import opened Lease

  const CAUSE_TTL := "ttl_expired"

  /** A preemption that happened (`PeremptionEvent`). */
  datatype Preemption = Preemption(
    slot: string, lane: string, previous: Record, newOwner: Option<Owner>, at: Utc, cause: string)

  datatype State = State(rows: seq<Row>, index: Index, pending: seq<Preemption>)

  /** Operations with the clock they read; a claim reads it again when it mints the record. */
  datatype Op =
    | ClaimOp(resource: Resource, id: string, lane: string, owner: Owner, hash: Option<string>, now: int, mint: int)
    | ReleaseOp(slot: string, owner: Owner, now: int)
    | HeartbeatOp(slot: string, owner: Owner, now: int)
    | SweepOp(utc: Utc)
    | EventsOp

  datatype Reply =
    | Panic
    | Claimed(record: Record)
    | Join(existing: Record)
    | Busy(holder: Record)
    | Released
    | Gone
    | Refreshed(record: Record)
    | Freed(events: seq<Preemption>)
    | Drained(events: seq<Preemption>)

  function FreshRecord(slot: string, lane: string, owner: Owner, ttl: nat, question: Option<string>, mint: int)
    : Record
  {
    Record(slot, lane, owner.session, owner.host, owner.pid, None, None, Stamp(mint), ttl, Stamp(mint), question)
  }

  /** The event that reports a reclaim row. */
  function Report(row: Row): Preemption
    requires row.Reclaim?
  {
    Preemption(row.slot, row.previous.lane, row.previous, row.newOwner, row.at, row.cause)
  }

  // ---------- claim ----------

  datatype Decision = Refuse | Joins(existing: Record) | Free | Preempt(held: Record) | Taken(held: Record)

  predicate Claimable(resource: Resource, id: string, lane: string, hash: Option<string>) {
    && Trim(id) != "" && Trim(lane) != ""
    && (hash.Some? ==> resource == Quorum && Trim(hash.value) != "")
  }

  ghost function Decide(live: Index, op: Op): Decision
    requires op.ClaimOp?
  {
    var slot := SlotName(op.resource, op.id);
    if !Claimable(op.resource, op.id, op.lane, op.hash) then Refuse
    else if op.hash.Some? && FindActive(live, op.hash.value, Stamp(op.now)).Some? then
      Joins(FindActive(live, op.hash.value, Stamp(op.now)).value)
    else if slot !in live then Free
    else if live[slot].Stale(Stamp(op.now)) then Preempt(live[slot])
    else Taken(live[slot])
  }

  function Minted(op: Op): Record
    requires op.ClaimOp?
  {
    FreshRecord(SlotName(op.resource, op.id), op.lane, op.owner, Ttl(op.resource), op.hash, op.mint)
  }

  // ---------- sweep ----------

  function StaleAmong(live: Index, keys: seq<string>, now: Utc): (stale: seq<string>)
    requires forall k :: k in keys ==> k in live
    ensures forall k :: k in stale <==> k in keys && live[k].Stale(now)
  {
    if keys == [] then []
    else (if live[keys[0]].Stale(now) then [keys[0]] else []) + StaleAmong(live, keys[1..], now)
  }

  lemma {:induction false} StaleAscending(live: Index, keys: seq<string>, now: Utc)
    requires Ascending(keys) && forall k :: k in keys ==> k in live
    ensures Ascending(StaleAmong(live, keys, now))
  {
    if keys != [] {
      StaleAscending(live, keys[1..], now);
      var rest := StaleAmong(live, keys[1..], now);
      forall i | 0 <= i < |rest| ensures StrLe(keys[0], rest[i]) && keys[0] != rest[i] {
        assert rest[i] in keys[1..];
        var j :| 0 < j < |keys| && keys[j] == rest[i];
      }
    }
  }

  /** The slots a sweep frees, in slot order. */
  ghost function StaleSlots(live: Index, now: Utc): (stale: seq<string>)
    ensures forall k :: k in stale <==> k in live && live[k].Stale(now)
    ensures Ascending(stale)
  {
    StaleAscending(live, Ordered(live.Keys), now);
    StaleAmong(live, Ordered(live.Keys), now)
  }

  function Without(live: Index, slots: seq<string>): Index {
    live - (set k | k in slots)
  }

  function ReclaimRows(live: Index, slots: seq<string>, now: Utc): (rows: seq<Row>)
    requires forall k :: k in slots ==> k in live
    ensures |rows| == |slots|
    ensures forall i :: 0 <= i < |rows| ==> rows[i] == Reclaim(slots[i], now, CAUSE_TTL, None, live[slots[i]])
  {
    seq(|slots|, i requires 0 <= i < |slots| => Reclaim(slots[i], now, CAUSE_TTL, None, live[slots[i]]))
  }

  function Reports(rows: seq<Row>): (events: seq<Preemption>)
    decreases |rows|
  {
    if rows == [] then []
    else
      var last := rows[|rows| - 1];
      Reports(rows[..|rows| - 1]) + if last.Reclaim? then [Report(last)] else []
  }

  lemma {:induction false} ReportsAppend(a: seq<Row>, b: seq<Row>)
    ensures Reports(a + b) == Reports(a) + Reports(b)
    decreases |b|
  {
    if b == [] {
      assert a + b == a;
    } else {
      assert (a + b)[..|a + b| - 1] == a + b[..|b| - 1];
      ReportsAppend(a, b[..|b| - 1]);
    }
  }

  // ---------- one operation ----------

  predicate HeldBy(live: Index, slot: string, owner: Owner) {
    slot in live && live[slot].Holder() == owner
  }

  /** The rows an operation journals, in order. */
  ghost function RowsOf(live: Index, op: Op): seq<Row> {
    match op
    case ClaimOp(_, _, _, owner, _, now, _) => (
      match Decide(live, op)
      case Free => [Claim(Minted(op))]
      case Preempt(held) => [Reclaim(SlotName(op.resource, op.id), Stamp(now), CAUSE_TTL, Some(owner), held),
        Claim(Minted(op))]
      case _ => [])
    case ReleaseOp(slot, owner, now) => if HeldBy(live, slot, owner) then [Release(slot, Stamp(now))] else []
    case HeartbeatOp(slot, owner, now) => if HeldBy(live, slot, owner) then [Heartbeat(slot, Stamp(now))] else []
    case SweepOp(utc) => ReclaimRows(live, StaleSlots(live, utc), utc)
    case EventsOp => []
  }

  /** The index an operation leaves, by its own updates of the map. */
  ghost function IndexAfter(live: Index, op: Op): Index {
    match op
    case ClaimOp(_, _, _, _, _, _, _) =>
      var d := Decide(live, op);
      if d.Free? || d.Preempt? then live[SlotName(op.resource, op.id) := Minted(op)] else live
    case ReleaseOp(slot, owner, _) => if HeldBy(live, slot, owner) then live - {slot} else live
    case HeartbeatOp(slot, owner, now) =>
      if HeldBy(live, slot, owner) then live[slot := live[slot].(heartbeat := Stamp(now))] else live
    case SweepOp(utc) => Without(live, StaleSlots(live, utc))
    case EventsOp => live
  }

  ghost function PendingAfter(s: State, op: Op): seq<Preemption> {
    match op
    case ClaimOp(_, _, _, _, _, _, _) =>
      if Decide(s.index, op).Preempt? then s.pending + [Report(RowsOf(s.index, op)[0])] else s.pending
    case EventsOp => []
    case _ => s.pending
  }

  ghost function Step(s: State, op: Op): State {
    State(s.rows + RowsOf(s.index, op), IndexAfter(s.index, op), PendingAfter(s, op))
  }

  ghost function Answer(s: State, op: Op): Reply {
    match op
    case ClaimOp(_, _, _, _, _, _, _) => (
      match Decide(s.index, op)
      case Refuse => Panic
      case Joins(existing) => Join(existing)
      case Taken(held) => Busy(held)
      case _ => Claimed(Minted(op)))
    case ReleaseOp(slot, owner, _) =>
      if slot in s.index && s.index[slot].Holder() != owner then Busy(s.index[slot]) else Released
    case HeartbeatOp(slot, owner, now) =>
      if slot !in s.index then Gone
      else if s.index[slot].Holder() != owner then Busy(s.index[slot])
      else Refreshed(s.index[slot].(heartbeat := Stamp(now)))
    case SweepOp(utc) => Freed(Reports(RowsOf(s.index, op)))
    case EventsOp => Drained(s.pending)
  }

  // ---------- runs ----------

  /** An operation that completed, or one cut by a crash after so many of its rows; the store reopens. */
  datatype Event = Done(op: Op) | Crashed(op: Op, kept: nat)

  function Cut(rows: seq<Row>, kept: nat): seq<Row> {
    if kept <= |rows| then rows[..kept] else rows
  }

  ghost function Next(s: State, e: Event): State {
    match e
    case Done(op) => Step(s, op)
    case Crashed(op, kept) =>
      var rows := s.rows + Cut(RowsOf(s.index, op), kept);
      State(rows, Fold(rows), [])
  }

  ghost function After(s: State, es: seq<Event>): State
    decreases |es|
  {
    if es == [] then s else After(Next(s, es[0]), es[1..])
  }

  /** What `open` establishes: the index is the fold of the journal. */
  ghost predicate Consistent(s: State) {
    s.index == Fold(s.rows)
  }
}
