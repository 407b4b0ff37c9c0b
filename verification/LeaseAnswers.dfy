/**
 What every operation of the lease store answers, journals and leaves, said of the slots and the clock:
 crates/caddis-bitynas/src/store.rs, lease.rs and resource.rs.
 */
module LeaseAnswers {
  import opened Wrappers
  import opened Text
  import opened BTree
  import opened Lease
  import opened LeaseOps

  // ---------- staleness, in seconds ----------

  /** Strictly older than its time to live; one that does not parse is never stale. */
  ghost predicate Expired(r: Record, now: int) {
    r.heartbeat.Stamp? && now - r.heartbeat.sec > if r.ttl < 0x8000_0000_0000_0000 then r.ttl else r.ttl - U64_LIMIT
  }

  lemma StaleLaw(r: Record, now: Utc)
    requires r.ttl < U64_LIMIT
    ensures r.Stale(now) <==> now.Stamp? && Expired(r, now.sec)
  {
  }

  /** Every lease's time to live is a 64-bit number. */
  ghost predicate Sized(s: State) {
    forall slot :: slot in s.index ==> s.index[slot].ttl < U64_LIMIT
  }

  ghost predicate Owned(r: Record, owner: Owner) {
    r.session == owner.session && r.host == owner.host && r.pid == owner.pid
  }

  // ---------- heartbeat and release ----------

  /**
   A heartbeat is answered by what the slot holds: nothing is gone, another's lease is busy, and only the
   holder's own is refreshed. The refreshed lease is the one held with the new heartbeat, filed and
   journaled as such; the other two answers change nothing.
   */
  lemma {:induction false} HeartbeatLaw(s: State, slot: string, owner: Owner, now: int)
    ensures var op := HeartbeatOp(slot, owner, now);
      var t := Step(s, op);
      match Answer(s, op)
      case Refreshed(r) =>
        && slot in s.index && Owned(s.index[slot], owner) && Owned(r, owner)
        && r == s.index[slot].(heartbeat := Stamp(now))
        && t == State(s.rows + [Heartbeat(slot, Stamp(now))], s.index[slot := r], s.pending)
      case Busy(holder) => slot in s.index && holder == s.index[slot] && !Owned(holder, owner) && t == s
      case Gone => slot !in s.index && t == s
      case _ => false
  {
    assert s.rows + [] == s.rows;
  }

  /**
   A release leaves the slot free whenever it is answered as one: it was free already and nothing changed,
   or the caller held it and one release row is journaled. Another's lease is busy and stays.
   */
  lemma {:induction false} ReleaseLaw(s: State, slot: string, owner: Owner, now: int)
    ensures var op := ReleaseOp(slot, owner, now);
      var t := Step(s, op);
      match Answer(s, op)
      case Released =>
        && slot !in t.index
        && if slot in s.index then
             && Owned(s.index[slot], owner)
             && t == State(s.rows + [Release(slot, Stamp(now))], s.index - {slot}, s.pending)
           else t == s
      case Busy(holder) => slot in s.index && holder == s.index[slot] && !Owned(holder, owner) && t == s
      case _ => false
  {
    assert s.rows + [] == s.rows;
  }

  // ---------- sweep and events ----------

  /** One reclaim row and one event for the lease of each slot. */
  ghost predicate Swept(index: Index, slots: seq<string>, utc: Utc, rows: seq<Row>, events: seq<Preemption>) {
    && |rows| == |slots| == |events|
    && forall i :: 0 <= i < |slots| ==>
         && slots[i] in index
         && rows[i] == Reclaim(slots[i], utc, "ttl_expired", None, index[slots[i]])
         && events[i] == Preemption(slots[i], index[slots[i]].lane, index[slots[i]], None, utc, "ttl_expired")
  }

  lemma {:induction false} ReportsOfReclaims(index: Index, slots: seq<string>, utc: Utc)
    requires forall k :: k in slots ==> k in index
    ensures Swept(index, slots, utc, ReclaimRows(index, slots, utc), Reports(ReclaimRows(index, slots, utc)))
    decreases |slots|
  {
    var rows := ReclaimRows(index, slots, utc);
    if slots == [] {
      assert rows == [];
    } else {
      var front := slots[..|slots| - 1];
      assert forall k :: k in front ==> k in slots;
      ReportsOfReclaims(index, front, utc);
      assert rows[..|rows| - 1] == ReclaimRows(index, front, utc);
      assert rows[|rows| - 1].Reclaim?;
    }
  }

  /**
   A sweep frees exactly the expired slots, in ascending order, each with its reclaim row and its event, and
   answers with those events; nothing is left pending by it.
   */
  lemma {:induction false} SweepLaw(s: State, utc: Utc)
    requires Sized(s)
    ensures exists slots ::
      && Ascending(slots)
      && (forall k :: k in slots <==> k in s.index && utc.Stamp? && Expired(s.index[k], utc.sec))
      && SweptTo(s, utc, slots)
  {
    var slots := StaleSlots(s.index, utc);
    ReportsOfReclaims(s.index, slots, utc);
    forall k | k in s.index ensures s.index[k].Stale(utc) <==> utc.Stamp? && Expired(s.index[k], utc.sec) {
      StaleLaw(s.index[k], utc);
    }
    hide StaleSlots, ReclaimRows, Reports, Swept, Expired, Ascending;
    var rows := ReclaimRows(s.index, slots, utc);
    assert Step(s, SweepOp(utc)).rows == s.rows + rows;
    assert SweptTo(s, utc, slots);
  }

  ghost predicate SweptTo(s: State, utc: Utc, slots: seq<string>) {
    var op := SweepOp(utc);
    var t := Step(s, op);
    && Answer(s, op).Freed? && s.rows <= t.rows && t.pending == s.pending
    && t.index == s.index - (set k | k in slots)
    && Swept(s.index, slots, utc, t.rows[|s.rows|..], Answer(s, op).events)
  }

  /** Draining hands out what is pending and leaves nothing pending; nothing else changes. */
  lemma EventsLaw(s: State)
    ensures Answer(s, EventsOp) == Drained(s.pending) && Step(s, EventsOp) == State(s.rows, s.index, [])
  {
    assert s.rows + [] == s.rows;
  }

  // ---------- claims ----------

  /** The slot a claim is about: a bee's own id, else the id behind its type's prefix. */
  ghost function Named(r: Resource, id: string): string {
    match r
    case BeeSlot => id
    case Council => "council:" + id
    case Quorum => "quorum:" + id
    case Voice => "voice:" + id
  }

  ghost function Seconds(r: Resource): nat {
    match r
    case BeeSlot => 900
    case Council => 1800
    case Quorum => 7200
    case Voice => 60
  }

  /** A claim that is no caller's bug. */
  ghost predicate Sane(op: Op)
    requires op.ClaimOp?
  {
    && Inked(op.id) && Inked(op.lane)
    && (op.hash.Some? ==> op.resource.Quorum? && Inked(op.hash.value))
  }

  /** A live quorum lease on the question. */
  ghost predicate Asks(index: Index, k: string, hash: string, now: int) {
    k in index && "quorum:" <= index[k].slot && index[k].question == Some(hash) && !Expired(index[k], now)
  }

  ghost predicate Joined(s: State, op: Op)
    requires op.ClaimOp?
  {
    op.hash.Some? && exists k :: Asks(s.index, k, op.hash.value, op.now)
  }

  /** Not blank: some character is no white space. */
  ghost predicate Inked(s: string) {
    exists i :: 0 <= i < |s| && !IsSpace(s[i])
  }

  lemma InkedTail(s: string)
    requires s != [] && IsSpace(s[0])
    ensures Inked(s) <==> Inked(s[1..])
  {
    hide IsSpace;
    if Inked(s) {
      var i :| 0 <= i < |s| && !IsSpace(s[i]);
      assert s[1..][i - 1] == s[i];
    }
    if Inked(s[1..]) {
      var i :| 0 <= i < |s[1..]| && !IsSpace(s[1..][i]);
      assert s[i + 1] == s[1..][i];
    }
  }

  lemma InkedFront(s: string)
    requires s != [] && IsSpace(s[|s| - 1])
    ensures Inked(s) <==> Inked(s[..|s| - 1])
  {
    hide IsSpace;
    var front := s[..|s| - 1];
    if Inked(s) {
      var i :| 0 <= i < |s| && !IsSpace(s[i]);
      assert front[i] == s[i];
    }
    if Inked(front) {
      var i :| 0 <= i < |front| && !IsSpace(front[i]);
      assert s[i] == front[i];
    }
  }

  lemma {:induction false} TrimKeeps(s: string)
    ensures Trim(s) != "" <==> Inked(s)
  {
    hide Inked;
    StartKeeps(s);
    EndKeeps(TrimStart(s));
  }

  lemma {:induction false} StartKeeps(s: string)
    ensures Inked(TrimStart(s)) <==> Inked(s)
  {
    hide IsSpace, Inked;
    if s != [] && IsSpace(s[0]) {
      StartKeeps(s[1..]);
      InkedTail(s);
    }
  }

  lemma {:induction false} EndKeeps(s: string)
    ensures TrimEnd(s) != "" <==> Inked(s)
  {
    hide IsSpace;
    if s != [] && IsSpace(s[|s| - 1]) {
      EndKeeps(s[..|s| - 1]);
      InkedFront(s);
    }
  }

  lemma SaneIsClaimable(op: Op)
    requires op.ClaimOp?
    ensures Claimable(op.resource, op.id, op.lane, op.hash) <==> Sane(op)
  {
    TrimKeeps(op.id);
    TrimKeeps(op.lane);
    if op.hash.Some? {
      TrimKeeps(op.hash.value);
    }
    hide Trim, IsSpace;
  }

  lemma AsksConsults(index: Index, k: string, hash: string, now: int)
    requires k in index && index[k].ttl < U64_LIMIT
    ensures Asks(index, k, hash, now) <==> Consults(index[k], hash, Stamp(now))
  {
    StaleLaw(index[k], Stamp(now));
    var slot := index[k].slot;
    assert "council:" <= slot ==> slot[0] == 'c';
    assert "quorum:" <= slot ==> slot[0] == 'q';
  }

  lemma JoinsIff(s: State, op: Op)
    requires op.ClaimOp? && Sized(s)
    ensures Joined(s, op) <==> op.hash.Some? && FindActive(s.index, op.hash.value, Stamp(op.now)).Some?
    ensures Joined(s, op) ==> exists k ::
      && Asks(s.index, k, op.hash.value, op.now)
      && FindActive(s.index, op.hash.value, Stamp(op.now)) == Some(s.index[k])
      && forall j :: Asks(s.index, j, op.hash.value, op.now) ==> StrLe(k, j)
  {
    if op.hash.Some? {
      forall k | k in s.index
        ensures Asks(s.index, k, op.hash.value, op.now) <==> Consults(s.index[k], op.hash.value, Stamp(op.now))
      {
        AsksConsults(s.index, k, op.hash.value, op.now);
      }
      hide Asks, Consults;
      assert Ascending(Ordered(s.index.Keys));
      FirstLeast(s.index, Ordered(s.index.Keys), op.hash.value, Stamp(op.now));
      assert forall j :: Asks(s.index, j, op.hash.value, op.now) ==> j in s.index by {
        AsksIn(s.index, op.hash.value, op.now);
      }
    }
  }

  lemma AsksIn(index: Index, hash: string, now: int)
    ensures forall j :: Asks(index, j, hash, now) ==> j in index
  {
  }

  /** The walk finds the least of the slots it looks for. */
  lemma {:induction false} FirstLeast(live: Index, keys: seq<string>, hash: string, now: Utc)
    requires Ascending(keys) && forall k :: k in keys ==> k in live
    ensures FirstActive(live, keys, hash, now).Some? ==> exists k ::
      && k in keys && Consults(live[k], hash, now) && FirstActive(live, keys, hash, now) == Some(live[k])
      && forall j :: j in keys && Consults(live[j], hash, now) ==> StrLe(k, j)
    decreases |keys|
  {
    hide Consults;
    if keys != [] {
      if Consults(live[keys[0]], hash, now) {
        forall j | j in keys && Consults(live[j], hash, now) ensures StrLe(keys[0], j) {
          var i :| 0 <= i < |keys| && keys[i] == j;
          StrLeTotal(keys[0], keys[0]);
        }
      } else {
        FirstLeast(live, keys[1..], hash, now);
      }
    }
  }

  /** The lease a claim mints. */
  ghost function NewLease(op: Op): Record
    requires op.ClaimOp?
  {
    Record(Named(op.resource, op.id), op.lane, op.owner.session, op.owner.host, op.owner.pid, None, None,
      Stamp(op.mint), Seconds(op.resource), Stamp(op.mint), op.hash)
  }

  /**
   When a claim is answered how, and what it leaves. A caller's bug panics; a question that a live quorum
   lease asks joins the first one in slot order; else a free slot is claimed with one row; an expired
   lease is reclaimed first, with its row and a pending event; and a live one is busy.
   */
  lemma {:induction false} ClaimAnswers(s: State, op: Op)
    requires op.ClaimOp? && Sized(s)
    ensures var slot, t, a, r := Named(op.resource, op.id), Step(s, op), Answer(s, op), NewLease(op);
      if !Sane(op) then a == Panic && t == s
      else if Joined(s, op) then t == s && exists k ::
        && Asks(s.index, k, op.hash.value, op.now) && a == Join(s.index[k])
        && forall j :: Asks(s.index, j, op.hash.value, op.now) ==> StrLe(k, j)
      else if slot !in s.index then a == Claimed(r) && t == State(s.rows + [Claim(r)], s.index[slot := r], s.pending)
      else if Expired(s.index[slot], op.now) then
        var held, at := s.index[slot], Stamp(op.now);
        && a == Claimed(r)
        && t == State(s.rows + [Reclaim(slot, at, "ttl_expired", Some(op.owner), held), Claim(r)], s.index[slot := r],
             s.pending + [Preemption(slot, held.lane, held, Some(op.owner), at, "ttl_expired")])
      else a == Busy(s.index[slot]) && t == s
  {
    SaneIsClaimable(op);
    JoinsIff(s, op);
    assert SlotName(op.resource, op.id) == Named(op.resource, op.id) && Minted(op) == NewLease(op);
    if Named(op.resource, op.id) in s.index {
      StaleLaw(s.index[Named(op.resource, op.id)], Stamp(op.now));
    }
    hide FindActive, Claimable, Sane, Joined, Asks, Expired, Named, SlotName, NewLease, Minted, AsI64;
    assert s.rows + [] == s.rows;
  }
}
