/**
 Leases and their journal: crates/caddis-bitynas/src/lease.rs, the rows and the fold of journal.rs,
 and the resource types of resource.rs.
 */
module Lease {
  import opened Wrappers
  import opened BTree

  /** A timestamp as the epoch second it parses to; `Garbled` when it does not parse. */
  datatype Utc = Stamp(sec: int) | Garbled

  datatype Owner = Owner(session: string, host: string, pid: nat)

  datatype Record = Record(
    slot: string, lane: string, session: string, host: string, pid: nat,
    repo: Option<string>, card: Option<string>,
    taken: Utc, ttl: nat, heartbeat: Utc, question: Option<string>)
  {
    function Holder(): Owner {
      Owner(session, host, pid)
    }

    /** The `ttl_s as i64` cast wraps; a timestamp that does not parse never makes a lease stale. */
    predicate Stale(now: Utc) {
      now.Stamp? && heartbeat.Stamp? && now.sec - heartbeat.sec > AsI64(ttl)
    }
  }

  function AsI64(n: nat): int {
    var m := n % 0x1_0000_0000_0000_0000;
    if m < 0x8000_0000_0000_0000 then m else m - 0x1_0000_0000_0000_0000
  }

  type Index = map<string, Record>

  datatype Row =
    | Claim(record: Record)
    | Heartbeat(slot: string, at: Utc)
    | Release(slot: string, at: Utc)
    | Reclaim(slot: string, at: Utc, cause: string, newOwner: Option<Owner>, previous: Record)

  function Apply(live: Index, row: Row): Index {
    match row
    case Claim(record) => live[record.slot := record]
    case Heartbeat(slot, at) =>
      if slot in live then live[slot := live[slot].(heartbeat := at)] else live
    case Release(slot, _) => live - {slot}
    case Reclaim(slot, _, _, _, _) => live - {slot}
  }

  /** The live leases after the rows, from those before them. */
  function Replay(live: Index, rows: seq<Row>): Index
    decreases |rows|
  {
    if rows == [] then live else Apply(Replay(live, rows[..|rows| - 1]), rows[|rows| - 1])
  }

  function Fold(rows: seq<Row>): Index {
    Replay(map[], rows)
  }

  lemma {:induction false} ReplayAppend(live: Index, a: seq<Row>, b: seq<Row>)
    ensures Replay(live, a + b) == Replay(Replay(live, a), b)
    decreases |b|
  {
    if b == [] {
      assert a + b == a;
    } else {
      assert (a + b)[..|a + b| - 1] == a + b[..|b| - 1];
      ReplayAppend(live, a, b[..|b| - 1]);
    }
  }

  /** Every lease is filed under its own slot. */
  ghost predicate Keyed(live: Index) {
    forall slot :: slot in live ==> live[slot].slot == slot
  }

  lemma {:induction false} FoldKeyed(rows: seq<Row>)
    ensures Keyed(Fold(rows))
    decreases |rows|
  {
    if rows != [] {
      FoldKeyed(rows[..|rows| - 1]);
    }
  }

  /** `fold`, as the loop that inserts into, updates and removes from the `live` map. */
  method FoldRows(rows: seq<Row>) returns (live: Index)
    ensures live == Fold(rows)
  {
    live := map[];
    for i := 0 to |rows|
      invariant live == Fold(rows[..i])
    {
      assert rows[..i + 1][..i] == rows[..i];
      match rows[i] {
        case Claim(record) => live := live[record.slot := record];
        case Heartbeat(slot, at) =>
          if slot in live {
            live := live[slot := live[slot].(heartbeat := at)];
          }
        case Release(slot, _) => live := live - {slot};
        case Reclaim(slot, _, _, _, _) => live := live - {slot};
      }
    }
    assert rows[..|rows|] == rows;
  }

  // ---------- resource types ----------

  datatype Resource = BeeSlot | Council | Quorum | Voice

  function Prefix(r: Resource): string {
    match r
    case BeeSlot => "bee:"
    case Council => "council:"
    case Quorum => "quorum:"
    case Voice => "voice:"
  }

  function Ttl(r: Resource): nat {
    match r
    case BeeSlot => 900
    case Council => 1800
    case Quorum => 7200
    case Voice => 60
  }

  function TypeOf(slot: string): Resource {
    if Prefix(Council) <= slot then Council
    else if Prefix(Quorum) <= slot then Quorum
    else if Prefix(Voice) <= slot then Voice
    else BeeSlot
  }

  function SlotName(r: Resource, id: string): string {
    if r.BeeSlot? then id else Prefix(r) + id
  }

  lemma PrefixesDiffer(r: Resource, q: Resource, a: string, b: string)
    requires !r.BeeSlot? && !q.BeeSlot?
    ensures Prefix(r) + a == Prefix(q) + b ==> r == q && a == b
  {
    var s := Prefix(r) + a;
    if s == Prefix(q) + b {
      assert s[0] == Prefix(r)[0] == Prefix(q)[0];
      assert s[|Prefix(r)|..] == a && (Prefix(q) + b)[|Prefix(q)|..] == b;
    }
  }

  /**
   The namespace law. Two claims meet in one slot exactly when they name the same resource, or a bee
   id spells another type's prefixed name; and a slot parses back to its type except for such a bee.
   */
  lemma {:induction false} NamespaceLaw(r: Resource, a: string, q: Resource, b: string)
    ensures SlotName(r, a) == SlotName(q, b) <==>
      || (r == q && a == b)
      || (r.BeeSlot? && !q.BeeSlot? && a == Prefix(q) + b)
      || (q.BeeSlot? && !r.BeeSlot? && b == Prefix(r) + a)
    ensures TypeOf(SlotName(r, a)) == r <==>
      !(r.BeeSlot? && exists t: Resource, id: string :: !t.BeeSlot? && a == SlotName(t, id))
  {
    if !r.BeeSlot? && !q.BeeSlot? {
      PrefixesDiffer(r, q, a, b);
    }
    var s := SlotName(r, a);
    forall t: Resource | !t.BeeSlot? && Prefix(t) <= s ensures TypeOf(s) == t && s == SlotName(t, s[|Prefix(t)|..]) {
      assert s == Prefix(t) + s[|Prefix(t)|..];
      assert s[0] == Prefix(t)[0];
    }
    if !r.BeeSlot? {
      assert Prefix(r) <= s;
    } else if !TypeOf(s).BeeSlot? {
      assert Prefix(TypeOf(s)) <= s;
    }
  }

  // ---------- the join key ----------

  predicate Consults(r: Record, hash: string, now: Utc) {
    TypeOf(r.slot) == Quorum && r.question == Some(hash) && !r.Stale(now)
  }

  function FirstActive(live: Index, keys: seq<string>, hash: string, now: Utc): (r: Option<Record>)
    requires forall k :: k in keys ==> k in live
    ensures r.Some? ==> exists k :: k in keys && r.value == live[k] && Consults(live[k], hash, now)
    ensures r.None? ==> forall k :: k in keys ==> !Consults(live[k], hash, now)
  {
    if keys == [] then None
    else if Consults(live[keys[0]], hash, now) then Some(live[keys[0]])
    else FirstActive(live, keys[1..], hash, now)
  }

  /** `find_active_quorum_by_hash`: the first live quorum lease on the question, in slot order. */
  ghost function FindActive(live: Index, hash: string, now: Utc): (r: Option<Record>)
    ensures r.Some? <==> exists k :: k in live && Consults(live[k], hash, now)
    ensures r.Some? ==> r.value in live.Values && Consults(r.value, hash, now)
  {
    FirstActive(live, Ordered(live.Keys), hash, now)
  }
}
