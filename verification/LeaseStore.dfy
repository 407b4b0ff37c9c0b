/**
 The lease store itself: crates/caddis-bitynas/src/store.rs and `claim_typed`, `preempt_stale` of
 resource.rs, proved against the functions of LeaseOps.dfy. Each row is journaled before the index
 changes; the clock readings are parameters.
 */
module LeaseStore {
  import opened Wrappers
  import opened Text
  import opened BTree
  import opened Lease
  import opened LeaseOps

  /** The journal file, one entry a non-blank line; `None` is a line that does not parse. */
  class Journal {
    var lines: seq<Option<Row>>

    constructor (lines: seq<Option<Row>>)
      ensures this.lines == lines
    {
      this.lines := lines;
    }
  }

  function Intact(lines: seq<Option<Row>>): seq<Row>
    decreases |lines|
  {
    if lines == [] then []
    else
      var last := lines[|lines| - 1];
      Intact(lines[..|lines| - 1]) + if last.Some? then [last.value] else []
  }

  lemma IntactSnoc(lines: seq<Option<Row>>, row: Row)
    ensures Intact(lines + [Some(row)]) == Intact(lines) + [row]
  {
    assert (lines + [Some(row)])[..|lines + [Some(row)]| - 1] == lines;
  }

  class LeaseStore {
    const journal: Journal
    var index: Index
    var pending: seq<Preemption>
    var unreadable: nat

    ghost function Abstract(): State
      reads this, journal
    {
      State(Intact(journal.lines), index, pending)
    }

    constructor Open(journal: Journal)
      ensures this.journal == journal && Consistent(Abstract()) && pending == []
      ensures Abstract().rows == Intact(journal.lines)
      ensures unreadable + |Intact(journal.lines)| == |journal.lines|
    {
      var rows: seq<Row>, bad := [], 0;
      for i := 0 to |journal.lines|
        invariant rows == Intact(journal.lines[..i])
        invariant bad + |rows| == i
      {
        assert journal.lines[..i + 1][..i] == journal.lines[..i];
        match journal.lines[i]
        case Some(row) => rows := rows + [row];
        case None => bad := bad + 1;
      }
      assert journal.lines[..|journal.lines|] == journal.lines;
      var live := FoldRows(rows);
      this.journal := journal;
      index, pending, unreadable := live, [], bad;
    }

    method Append(row: Row)
      modifies journal
      ensures Intact(journal.lines) == old(Intact(journal.lines)) + [row]
    {
      IntactSnoc(journal.lines, row);
      journal.lines := journal.lines + [Some(row)];
    }

    method FindActiveQuorum(hash: string, now: Utc) returns (r: Option<Record>)
      ensures r == FindActive(index, hash, now)
    {
      var keys := Walk(index.Keys);
      r := FirstActive(index, keys, hash, now);
    }

    /** `preempt_stale`: reclaim row, claim row, event, then the index. */
    method PreemptStale(op: Op, held: Record) returns (record: Record)
      requires op.ClaimOp?
      modifies this`index, this`pending, journal
      ensures record == Minted(op)
      ensures var reclaim := Reclaim(SlotName(op.resource, op.id), Stamp(op.now), CAUSE_TTL, Some(op.owner), held);
        && Intact(journal.lines) == old(Intact(journal.lines)) + [reclaim, Claim(record)]
        && pending == old(pending) + [Report(reclaim)]
      ensures index == old(index)[SlotName(op.resource, op.id) := record]
    {
      var slot := SlotName(op.resource, op.id);
      Append(Reclaim(slot, Stamp(op.now), CAUSE_TTL, Some(op.owner), held));
      record := FreshRecord(slot, op.lane, op.owner, Ttl(op.resource), op.hash, op.mint);
      Append(Claim(record));
      pending := pending + [Preemption(slot, held.lane, held, Some(op.owner), Stamp(op.now), CAUSE_TTL)];
      index := index[slot := record];
    }

    method ClaimTyped(op: Op) returns (reply: Reply)
      requires op.ClaimOp?
      modifies this`index, this`pending, journal
      ensures Abstract() == Step(old(Abstract()), op) && reply == Answer(old(Abstract()), op)
    {
      hide Intact, FindActive, Claimable;
      if !Claimable(op.resource, op.id, op.lane, op.hash) {
        return Panic;
      }
      var slot, now := SlotName(op.resource, op.id), Stamp(op.now);
      if op.hash.Some? {
        var existing := FindActiveQuorum(op.hash.value, now);
        if existing.Some? {
          return Join(existing.value);
        }
      }
      if slot !in index {
        var record := FreshRecord(slot, op.lane, op.owner, Ttl(op.resource), op.hash, op.mint);
        Append(Claim(record));
        index := index[slot := record];
        return Claimed(record);
      }
      var held := index[slot];
      if held.Stale(now) {
        var record := PreemptStale(op, held);
        return Claimed(record);
      }
      reply := Busy(held);
    }

    /** `claim`, the bee entry point: a typed claim without a hash, which never joins. */
    method ClaimBee(slot: string, lane: string, owner: Owner, now: int, mint: int) returns (reply: Reply)
      modifies this`index, this`pending, journal
      ensures var op := ClaimOp(BeeSlot, slot, lane, owner, None, now, mint);
        Abstract() == Step(old(Abstract()), op) && reply == Answer(old(Abstract()), op)
      ensures reply.Panic? || reply.Claimed? || reply.Busy?
    {
      reply := ClaimTyped(ClaimOp(BeeSlot, slot, lane, owner, None, now, mint));
    }

    method ReleaseSlot(slot: string, owner: Owner, now: int) returns (reply: Reply)
      modifies this`index, journal
      ensures var op := ReleaseOp(slot, owner, now);
        Abstract() == Step(old(Abstract()), op) && reply == Answer(old(Abstract()), op)
    {
      hide Intact;
      if slot !in index {
        return Released;
      }
      if index[slot].Holder() == owner {
        Append(Release(slot, Stamp(now)));
        index := index - {slot};
        return Released;
      }
      reply := Busy(index[slot]);
    }

    method Beat(slot: string, owner: Owner, now: int) returns (reply: Reply)
      modifies this`index, journal
      ensures var op := HeartbeatOp(slot, owner, now);
        Abstract() == Step(old(Abstract()), op) && reply == Answer(old(Abstract()), op)
    {
      hide Intact;
      if slot !in index {
        return Gone;
      }
      if index[slot].Holder() == owner {
        Append(Heartbeat(slot, Stamp(now)));
        var record := index[slot].(heartbeat := Stamp(now));
        index := index[slot := record];
        return Refreshed(record);
      }
      reply := Busy(index[slot]);
    }

    method StaleNow(utc: Utc) returns (stale: seq<string>)
      ensures stale == StaleSlots(index, utc)
    {
      var keys := Walk(index.Keys);
      stale := StaleAmong(index, keys, utc);
    }

    /** The loop of `sweep` over the slots found stale. */
    method FreeEach(stale: seq<string>, utc: Utc) returns (events: seq<Preemption>)
      requires Ascending(stale) && forall k :: k in stale ==> k in index
      modifies this`index, journal
      ensures index == Without(old(index), stale)
      ensures Intact(journal.lines) == old(Intact(journal.lines)) + ReclaimRows(old(index), stale, utc)
      ensures events == Reports(ReclaimRows(old(index), stale, utc))
    {
      ghost var live, rows := index, Intact(journal.lines);
      events := [];
      SweptNone(live, rows, utc);
      hide Intact, Reports, Without, ReclaimRows, Ascending;
      for i := 0 to |stale|
        invariant index == Without(live, stale[..i])
        invariant Intact(journal.lines) == rows + ReclaimRows(live, stale[..i], utc)
        invariant events == Reports(ReclaimRows(live, stale[..i], utc))
      {
        SweptOne(live, rows, stale, i, utc);
        var slot := stale[i];
        if slot in index {
          var previous := index[slot];
          Append(Reclaim(slot, utc, CAUSE_TTL, None, previous));
          index := index - {slot};
          events := events + [Preemption(slot, previous.lane, previous, None, utc, CAUSE_TTL)];
        }
      }
      assert stale[..|stale|] == stale;
    }

    method Sweep(utc: Utc) returns (events: seq<Preemption>)
      modifies this`index, journal
      ensures Abstract() == Step(old(Abstract()), SweepOp(utc))
      ensures Freed(events) == Answer(old(Abstract()), SweepOp(utc))
    {
      hide Intact, Reports, Without, ReclaimRows, Ascending;
      var stale := StaleNow(utc);
      events := FreeEach(stale, utc);
    }

    /** `events()`: take what is pending. */
    method Events() returns (events: seq<Preemption>)
      modifies this`pending
      ensures Abstract() == Step(old(Abstract()), EventsOp)
      ensures Drained(events) == Answer(old(Abstract()), EventsOp)
    {
      events := pending;
      pending := [];
      assert Intact(journal.lines) + [] == Intact(journal.lines);
    }
  }

  lemma SweptNone(live: Index, rows: seq<Row>, utc: Utc)
    ensures Without(live, []) == live && ReclaimRows(live, [], utc) == []
    ensures rows + ReclaimRows(live, [], utc) == rows && Reports([]) == []
  {
  }

  lemma SweptOne(live: Index, rows: seq<Row>, stale: seq<string>, i: nat, utc: Utc)
    requires i < |stale| && Ascending(stale) && forall k :: k in stale ==> k in live
    ensures stale[i] in Without(live, stale[..i]) && Without(live, stale[..i])[stale[i]] == live[stale[i]]
    ensures Without(live, stale[..i + 1]) == Without(live, stale[..i]) - {stale[i]}
    ensures var row := Reclaim(stale[i], utc, CAUSE_TTL, None, live[stale[i]]);
      var done, next := ReclaimRows(live, stale[..i], utc), ReclaimRows(live, stale[..i + 1], utc);
      && rows + next == rows + done + [row]
      && Reports(next) == Reports(done) + [Report(row)]
  {
    hide StrLe;
    var row := Reclaim(stale[i], utc, CAUSE_TTL, None, live[stale[i]]);
    var done := ReclaimRows(live, stale[..i], utc);
    assert ReclaimRows(live, stale[..i + 1], utc) == done + [row];
    assert (done + [row])[..|done + [row]| - 1] == done;
    assert stale[..i + 1] == stale[..i] + [stale[i]];
    WithoutOne(live, stale[..i], stale[i]);
  }

  lemma WithoutOne(live: Index, slots: seq<string>, slot: string)
    ensures Without(live, slots + [slot]) == Without(live, slots) - {slot}
  {
  }
}
