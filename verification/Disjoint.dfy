/**
 The quorum pool, strict and with the vetted reserve: crates/caddis-deliberate/src/disjoint.rs.
 */
module Disjoint {
  import opened Wrappers
  import opened Text
  import opened BTree
  import opened Seats

  datatype DisjointErr =
    | EmptyPool
    | Overlap(lanes: seq<string>)
    | Insufficient(have: nat, want: nat, skippedOverlap: nat, skippedNonLive: nat)
    | Floored(e: PanelErr)

  function Lanes(s: seq<Seat>): seq<string> {
    seq(|s|, i requires 0 <= i < |s| => s[i].lane)
  }

  function LaneSet(s: seq<Seat>): set<string> {
    set x | x in s :: x.lane
  }

  /** How a candidate's day looks: live or not, on the council's lanes or not, its overlap approved or not. */
  datatype Standing = NonLive | Apart | Reserve | Unapproved

  function StandingOf(council: set<string>, approved: set<string>, x: Seat): Standing {
    if !x.Selectable() then NonLive
    else if x.lane !in council then Apart
    else if x.lane in approved then Reserve
    else Unapproved
  }

  /** The candidates of one standing, in their order. */
  function Pick(council: set<string>, approved: set<string>, s: seq<Seat>, standing: Standing): seq<Seat> {
    Keep(s, (x: Seat) => StandingOf(council, approved, x) == standing)
  }

  lemma PickPermuted(council: set<string>, approved: set<string>, a: seq<Seat>, b: seq<Seat>, standing: Standing)
    requires DistinctLanes(a) && multiset(a) == multiset(b)
    ensures var pa, pb := Pick(council, approved, a, standing), Pick(council, approved, b, standing);
      |pa| == |pb| && Sort(pa) == Sort(pb) && LaneSet(pa) == LaneSet(pb)
  {
    hide StandingOf, Sort, Keep;
    KeepPermuted(a, b, (x: Seat) => StandingOf(council, approved, x) == standing);
  }

  /** What one more candidate adds to its standing, and to no other. */
  lemma OneMore(council: set<string>, approved: set<string>, s: seq<Seat>, i: nat, standing: Standing)
    requires i < |s|
    ensures Pick(council, approved, s[..i + 1], standing)
         == Pick(council, approved, s[..i], standing)
             + if StandingOf(council, approved, s[i]) == standing then [s[i]] else []
  {
    hide StandingOf;
    assert s[..i + 1][..i] == s[..i];
  }

  /** Whom the approval does not touch. */
  lemma {:induction false} ApprovalAside(council: set<string>, p: set<string>, q: set<string>, s: seq<Seat>,
      standing: Standing)
    requires standing.NonLive? || standing.Apart?
    ensures Pick(council, p, s, standing) == Pick(council, q, s, standing)
    decreases |s|
  {
    if s != [] {
      ApprovalAside(council, p, q, s[..|s| - 1], standing);
    }
  }

  /** The lanes of a pool that sit on the council too, in pool order. */
  function Shared(council: set<string>, pool: seq<Seat>): seq<string>
    decreases |pool|
  {
    if pool == [] then []
    else Shared(council, pool[..|pool| - 1]) + if pool[|pool| - 1].lane in council then [pool[|pool| - 1].lane] else []
  }

  // ---------- the strict pool ----------

  function CouncilLanes(council: Panel): set<string> {
    LaneSet(SeatsOf(council))
  }

  function StrictPool(council: Panel, candidates: seq<Seat>, size: nat, floors: Floors)
    : Result<seq<Seat>, DisjointErr>
  {
    var lanes := CouncilLanes(council);
    var eligible := Pick(lanes, {}, candidates, Apart);
    if size == 0 then Err(EmptyPool)
    else if |eligible| < size then
      Err(Insufficient(|eligible|, size, |Pick(lanes, {}, candidates, Unapproved)|,
        |Pick(lanes, {}, candidates, NonLive)|))
    else
      SortOrders(eligible);
      var pool := Sort(eligible)[..size];
      match CheckFloors(pool, floors)
      case Some(e) => Err(Floored(e))
      case None =>
        if Shared(lanes, pool) != [] then Err(Overlap(Shared(lanes, pool))) else Ok(pool)
  }

  /** `select_quorum_pool`: the loop that skips, counts and collects, then the sort and the proofs. */
  method SelectQuorumPool(council: Panel, candidates: seq<Seat>, size: nat, floors: Floors)
    returns (r: Result<seq<Seat>, DisjointErr>)
    ensures r == StrictPool(council, candidates, size, floors)
  {
    if size == 0 {
      return Err(EmptyPool);
    }
    var lanes := CouncilLanes(council);
    var skippedOverlap, skippedNonLive := 0, 0;
    var eligible: seq<Seat> := [];
    for i := 0 to |candidates|
      invariant eligible == Pick(lanes, {}, candidates[..i], Apart)
      invariant skippedOverlap == |Pick(lanes, {}, candidates[..i], Unapproved)|
      invariant skippedNonLive == |Pick(lanes, {}, candidates[..i], NonLive)|
    {
      assert candidates[..i + 1][..i] == candidates[..i];
      var seat := candidates[i];
      if !seat.Selectable() {
        skippedNonLive := skippedNonLive + 1;
      } else if seat.lane in lanes {
        skippedOverlap := skippedOverlap + 1;
      } else {
        eligible := eligible + [seat];
      }
    }
    assert candidates[..|candidates|] == candidates;
    if |eligible| < size {
      return Err(Insufficient(|eligible|, size, skippedOverlap, skippedNonLive));
    }
    SortOrders(eligible);
    var pool := Sort(eligible)[..size];
    match CheckFloors(pool, floors) {
      case Some(e) => return Err(Floored(e));
      case None =>
    }
    var overlap := Shared(lanes, pool);
    if overlap != [] {
      return Err(Overlap(overlap));
    }
    r := Ok(pool);
  }

  lemma {:induction false} SharedNone(council: set<string>, pool: seq<Seat>)
    requires forall x :: x in pool ==> x.lane !in council
    ensures Shared(council, pool) == []
    decreases |pool|
  {
    if pool != [] {
      SharedNone(council, pool[..|pool| - 1]);
    }
  }

  lemma {:induction false} SharedAll(council: set<string>, pool: seq<Seat>)
    requires forall x :: x in pool ==> x.lane in council
    ensures Shared(council, pool) == Lanes(pool)
    decreases |pool|
  {
    if pool != [] {
      SharedAll(council, pool[..|pool| - 1]);
    }
  }

  lemma {:induction false} SharedAppend(council: set<string>, a: seq<Seat>, b: seq<Seat>)
    ensures Shared(council, a + b) == Shared(council, a) + Shared(council, b)
    decreases |b|
  {
    if b == [] {
      assert a + b == a;
    } else {
      assert (a + b)[..|a + b| - 1] == a + b[..|b| - 1];
      SharedAppend(council, a, b[..|b| - 1]);
    }
  }

  function Take(s: seq<Seat>, n: nat): (r: seq<Seat>)
    ensures r <= s && |r| <= n
  {
    if n <= |s| then s[..n] else s
  }

  /** The members of a sorted prefix are members of what was sorted. */
  lemma TakenFrom(s: seq<Seat>, n: nat)
    ensures |Sort(s)| == |s| && forall x :: x in Take(Sort(s), n) ==> x in s
  {
    SortOrders(s);
    forall x | x in Take(Sort(s), n) ensures x in s {
      assert x in multiset(Sort(s));
    }
  }

  /**
   The strict pool is the `size` least live candidates off the council, in selection order; it meets
   the floors; the overlap re-proof never fires; and the day is refused exactly when too few are left.
   */
  lemma {:induction false} StrictLaw(council: Panel, candidates: seq<Seat>, size: nat, floors: Floors)
    ensures var r := StrictPool(council, candidates, size, floors);
      var eligible := Pick(CouncilLanes(council), {}, candidates, Apart);
      && (r.Err? ==> !r.error.Overlap?)
      && (r.Err? && r.error.Insufficient? <==> size > 0 && |eligible| < size)
      && (r.Ok? ==>
            && |r.value| == size && CheckFloors(r.value, floors).None?
            && (forall x :: x in r.value ==> x.Selectable() && x.lane !in CouncilLanes(council))
            && exists rest :: LeastOf(r.value, rest, multiset(eligible)))
      && (size > 0 && |eligible| >= size ==>
            |Sort(eligible)| == |eligible| && (r.Ok? <==> CheckFloors(Sort(eligible)[..size], floors).None?))
  {
    hide Sort, LeastOf, CheckFloors, Shared;
    var lanes := CouncilLanes(council);
    var eligible := Pick(lanes, {}, candidates, Apart);
    if 0 < size <= |eligible| {
      TakenFrom(eligible, size);
      SharedNone(lanes, Sort(eligible)[..size]);
      SortSplits(eligible, size);
      assert LeastOf(Sort(eligible)[..size], Sort(eligible)[size..], multiset(eligible));
    }
  }

  /** The order the candidates come in is no matter when their lanes are distinct. */
  lemma {:induction false} StrictIgnoresOrder(council: Panel, candidates: seq<Seat>, shuffled: seq<Seat>, size: nat,
      floors: Floors)
    requires DistinctLanes(candidates) && multiset(candidates) == multiset(shuffled)
    ensures StrictPool(council, candidates, size, floors) == StrictPool(council, shuffled, size, floors)
  {
    hide Pick, Sort, CheckFloors, Shared;
    var lanes := CouncilLanes(council);
    PickPermuted(lanes, {}, candidates, shuffled, Apart);
    PickPermuted(lanes, {}, candidates, shuffled, Unapproved);
    PickPermuted(lanes, {}, candidates, shuffled, NonLive);
  }

  // ---------- the vetted reserve ----------

  datatype Approval = Approval(id: string, lanes: seq<string>)

  datatype Audit = Audit(
    approvalId: string, disjointLanes: seq<string>, reserveLanes: seq<string>,
    skippedNonLive: nat, unapprovedLiveOverlap: seq<string>)

  datatype ReservePool = ReservePool(pool: seq<Seat>, audit: Audit)

  datatype ReserveErr =
    | NoPool
    | BlankApproval
    | Strict(e: DisjointErr)
    | ReserveExhausted(have: nat, want: nat, skippedNonLive: nat, unapprovedLiveOverlap: seq<string>)
    | PoolFloors(broken: PanelErr)
    | PoolOverlap(lanes: seq<string>)

  datatype Day = Day(disjoint: seq<Seat>, reserve: seq<Seat>, skippedNonLive: nat, unapproved: seq<string>)

  function Approved(approval: Approval): set<string> {
    set l | l in approval.lanes
  }

  ghost function ShapeDay(council: Panel, candidates: seq<Seat>, approval: Approval): Day {
    var lanes, approved := CouncilLanes(council), Approved(approval);
    Day(Sort(Pick(lanes, approved, candidates, Apart)), Sort(Pick(lanes, approved, candidates, Reserve)),
        |Pick(lanes, approved, candidates, NonLive)|, Ordered(LaneSet(Pick(lanes, approved, candidates, Unapproved))))
  }

  /** `shape_day`: one walk that classifies every candidate. */
  method ShapeOf(council: Panel, candidates: seq<Seat>, approval: Approval) returns (day: Day)
    ensures day == ShapeDay(council, candidates, approval)
  {
    hide Sort, Ordered;
    var lanes, approved := CouncilLanes(council), Approved(approval);
    var disjoint: seq<Seat>, reserve: seq<Seat>, skipped := [], [], 0;
    var unapproved: set<string> := {};
    for i := 0 to |candidates|
      invariant disjoint == Pick(lanes, approved, candidates[..i], Apart)
      invariant reserve == Pick(lanes, approved, candidates[..i], Reserve)
      invariant skipped == |Pick(lanes, approved, candidates[..i], NonLive)|
      invariant unapproved == LaneSet(Pick(lanes, approved, candidates[..i], Unapproved))
    {
      OneMore(lanes, approved, candidates, i, Apart);
      OneMore(lanes, approved, candidates, i, Reserve);
      OneMore(lanes, approved, candidates, i, NonLive);
      OneMore(lanes, approved, candidates, i, Unapproved);
      hide Pick;
      var seat := candidates[i];
      if !seat.Selectable() {
        skipped := skipped + 1;
      } else if seat.lane !in lanes {
        disjoint := disjoint + [seat];
      } else if seat.lane in approved {
        reserve := reserve + [seat];
      } else {
        unapproved := unapproved + {seat.lane};
      }
    }
    assert candidates[..|candidates|] == candidates;
    var sorted := Walk(unapproved);
    day := Day(Sort(disjoint), Sort(reserve), skipped, sorted);
  }

  function Outside(lanes: seq<string>, approved: set<string>): seq<string>
    decreases |lanes|
  {
    if lanes == [] then []
    else Outside(lanes[..|lanes| - 1], approved) + if lanes[|lanes| - 1] !in approved then [lanes[|lanes| - 1]] else []
  }

  /** `overlap_within_approval`: the double-duty lanes, or those of them the approval does not name. */
  function OverlapWithin(pool: seq<Seat>, council: set<string>, approved: set<string>)
    : Result<seq<string>, seq<string>>
  {
    var overlap := Shared(council, pool);
    if Outside(overlap, approved) == [] then Ok(overlap) else Err(Outside(overlap, approved))
  }

  function NotIn(lanes: seq<string>, reserve: seq<string>): seq<string>
    decreases |lanes|
  {
    if lanes == [] then []
    else NotIn(lanes[..|lanes| - 1], reserve) + if lanes[|lanes| - 1] !in reserve then [lanes[|lanes| - 1]] else []
  }

  ghost function WithReserve(council: Panel, candidates: seq<Seat>, size: nat, floors: Floors, approval: Approval)
    : Result<ReservePool, ReserveErr>
  {
    var day := ShapeDay(council, candidates, approval);
    if size == 0 then Err(NoPool)
    else if Trim(approval.id) == "" then Err(BlankApproval)
    else
      match StrictPool(council, candidates, size, floors)
      case Ok(pool) =>
        Ok(ReservePool(pool, Audit(approval.id, Lanes(pool), [], day.skippedNonLive, day.unapproved)))
      case Err(e) =>
        if !e.Insufficient? then Err(Strict(e))
        else if |day.disjoint| + |day.reserve| < size then
          Err(ReserveExhausted(|day.disjoint| + |day.reserve|, size, day.skippedNonLive, day.unapproved))
        else
          var disjoint := Take(day.disjoint, size);
          var pool := disjoint + Take(day.reserve, size - |disjoint|);
          match CheckFloors(pool, floors)
          case Some(e) => Err(PoolFloors(e))
          case None =>
            match OverlapWithin(pool, CouncilLanes(council), Approved(approval))
            case Err(lanes) => Err(PoolOverlap(lanes))
            case Ok(lanes) =>
              Ok(ReservePool(pool,
                Audit(approval.id, NotIn(Lanes(pool), lanes), lanes, day.skippedNonLive, day.unapproved)))
  }

  /** `select_quorum_pool_with_reserve`. */
  method SelectWithReserve(council: Panel, candidates: seq<Seat>, size: nat, floors: Floors, approval: Approval)
    returns (r: Result<ReservePool, ReserveErr>)
    ensures r == WithReserve(council, candidates, size, floors, approval)
  {
    hide StrictPool, ShapeDay, CheckFloors, OverlapWithin;
    if size == 0 {
      return Err(NoPool);
    }
    if Trim(approval.id) == "" {
      return Err(BlankApproval);
    }
    var strict := SelectQuorumPool(council, candidates, size, floors);
    var day := ShapeOf(council, candidates, approval);
    if strict.Ok? {
      return Ok(ReservePool(strict.value,
        Audit(approval.id, Lanes(strict.value), [], day.skippedNonLive, day.unapproved)));
    }
    if !strict.error.Insufficient? {
      return Err(Strict(strict.error));
    }
    if |day.disjoint| + |day.reserve| < size {
      return Err(ReserveExhausted(|day.disjoint| + |day.reserve|, size, day.skippedNonLive, day.unapproved));
    }
    var disjoint := Take(day.disjoint, size);
    var pool := disjoint + Take(day.reserve, size - |disjoint|);
    match CheckFloors(pool, floors) {
      case Some(e) => return Err(PoolFloors(e));
      case None =>
    }
    match OverlapWithin(pool, CouncilLanes(council), Approved(approval)) {
      case Err(lanes) => return Err(PoolOverlap(lanes));
      case Ok(lanes) =>
        return Ok(ReservePool(pool,
          Audit(approval.id, NotIn(Lanes(pool), lanes), lanes, day.skippedNonLive, day.unapproved)));
    }
  }

  lemma {:induction false} NotInLaw(a: seq<string>, b: seq<string>, reserve: seq<string>)
    requires forall l :: l in a ==> l !in reserve
    requires forall l :: l in b ==> l in reserve
    ensures NotIn(a + b, reserve) == a
    decreases |a| + |b|
  {
    if b != [] {
      assert (a + b)[..|a + b| - 1] == a + b[..|b| - 1];
      NotInLaw(a, b[..|b| - 1], reserve);
    } else if a != [] {
      assert a + b == a && a[..|a| - 1] + [] == a[..|a| - 1];
      NotInLaw(a[..|a| - 1], [], reserve);
    }
  }

  lemma {:induction false} OutsideNone(lanes: seq<string>, approved: set<string>)
    requires forall l :: l in lanes ==> l in approved
    ensures Outside(lanes, approved) == []
    decreases |lanes|
  {
    if lanes != [] {
      OutsideNone(lanes[..|lanes| - 1], approved);
    }
  }

  lemma LanesOf(s: seq<Seat>)
    ensures forall l :: l in Lanes(s) <==> l in LaneSet(s)
  {
    forall i | 0 <= i < |s| ensures Lanes(s)[i] == s[i].lane && s[i] in s {
    }
  }

  /** A pool of seats off the council and then approved seats on it splits back into the two. */
  lemma PoolSplits(d: seq<Seat>, r: seq<Seat>, council: set<string>, approved: set<string>)
    requires forall x :: x in d ==> x.lane !in council
    requires forall x :: x in r ==> x.lane in council && x.lane in approved
    ensures OverlapWithin(d + r, council, approved) == Ok(Lanes(r))
    ensures NotIn(Lanes(d + r), Lanes(r)) == Lanes(d)
  {
    SharedAppend(council, d, r);
    SharedNone(council, d);
    SharedAll(council, r);
    LanesOf(d);
    LanesOf(r);
    OutsideNone(Lanes(r), approved);
    assert [] + Lanes(r) == Lanes(r);
    assert Lanes(d + r) == Lanes(d) + Lanes(r);
    NotInLaw(Lanes(d), Lanes(r), Lanes(r));
  }

  /** Neither selector's overlap post-condition is ever reached. */
  lemma {:induction false} NoOverlapReached(council: Panel, candidates: seq<Seat>, size: nat, floors: Floors,
      approval: Approval)
    ensures var r := WithReserve(council, candidates, size, floors, approval);
      r.Err? ==> !r.error.PoolOverlap? && !(r.error.Strict? && r.error.e.Overlap?)
  {
    hide CheckFloors, Sort, Keep, Trim;
    StrictLaw(council, candidates, size, floors);
    DegradedPool(council, candidates, size, approval);
    hide StrictPool, ShapeDay;
  }

  /** The pool a degraded day would get: every seat off the council, then approved seats, in selection order. */
  ghost function Filled(council: Panel, candidates: seq<Seat>, size: nat, approval: Approval): (seq<Seat>, seq<Seat>)
  {
    var day := ShapeDay(council, candidates, approval);
    var disjoint := Take(day.disjoint, size);
    (disjoint, Take(day.reserve, size - |disjoint|))
  }

  lemma PickLaw(council: set<string>, approved: set<string>, s: seq<Seat>, standing: Standing)
    ensures forall x :: x in Pick(council, approved, s, standing) ==>
      x in s && StandingOf(council, approved, x) == standing
  {
    hide StandingOf;
  }

  lemma FilledMembers(council: Panel, candidates: seq<Seat>, size: nat, approval: Approval)
    ensures var (d, r) := Filled(council, candidates, size, approval);
      && (forall x :: x in d ==> x.lane !in CouncilLanes(council))
      && (forall x :: x in r ==> x.lane in CouncilLanes(council) && x.lane in Approved(approval))
  {
    hide Pick, Sort, Take, Ordered, LaneSet, Approved, CouncilLanes;
    var lanes, approved := CouncilLanes(council), Approved(approval);
    var (d, r) := Filled(council, candidates, size, approval);
    PickLaw(lanes, approved, candidates, Apart);
    PickLaw(lanes, approved, candidates, Reserve);
    TakenFrom(Pick(lanes, approved, candidates, Apart), size);
    TakenFrom(Pick(lanes, approved, candidates, Reserve), size - |d|);
  }

  lemma DegradedPool(council: Panel, candidates: seq<Seat>, size: nat, approval: Approval)
    ensures var (d, r) := Filled(council, candidates, size, approval);
      && OverlapWithin(d + r, CouncilLanes(council), Approved(approval)) == Ok(Lanes(r))
      && NotIn(Lanes(d + r), Lanes(r)) == Lanes(d)
  {
    hide Filled, OverlapWithin, NotIn, Approved, CouncilLanes;
    FilledMembers(council, candidates, size, approval);
    var (d, r) := Filled(council, candidates, size, approval);
    PoolSplits(d, r, CouncilLanes(council), Approved(approval));
  }

  /** A healthy day returns exactly the strict pool and leaves the approval unspent. */
  lemma {:induction false} HealthyDay(council: Panel, candidates: seq<Seat>, size: nat, floors: Floors,
      approval: Approval)
    requires StrictPool(council, candidates, size, floors).Ok? && Trim(approval.id) != ""
    ensures var r := WithReserve(council, candidates, size, floors, approval);
      && r.Ok? && r.value.pool == StrictPool(council, candidates, size, floors).value
      && r.value.audit.reserveLanes == [] && r.value.audit.disjointLanes == Lanes(r.value.pool)
      && r.value.audit.approvalId == approval.id
      && (forall l :: l in r.value.audit.disjointLanes ==> l !in CouncilLanes(council))
  {
    hide ShapeDay, Trim;
    StrictLaw(council, candidates, size, floors);
    var pool := StrictPool(council, candidates, size, floors).value;
    LanesOf(pool);
    hide StrictPool;
  }

  lemma Filling(apart: seq<Seat>, reserve: seq<Seat>, size: nat)
    requires |apart| < size
    ensures Take(Sort(apart), size) == Sort(apart) && |Sort(apart)| == |apart| && |Sort(reserve)| == |reserve|
    ensures var v := Take(Sort(reserve), size - |apart|);
      size <= |apart| + |reserve| ==> |v| == size - |apart| && exists rest :: LeastOf(v, rest, multiset(reserve))
  {
    hide Sort, LeastOf;
    TakenFrom(apart, size);
    TakenFrom(reserve, size);
    if size <= |apart| + |reserve| {
      var n := size - |apart|;
      SortSplits(reserve, n);
      assert LeastOf(Sort(reserve)[..n], Sort(reserve)[n..], multiset(reserve));
    }
  }

  /** What `Filled` takes when the seats off the council are too few and the reserve suffices. */
  lemma FilledLaw(council: Panel, candidates: seq<Seat>, size: nat, approval: Approval)
    requires |Pick(CouncilLanes(council), {}, candidates, Apart)| < size
    ensures var lanes, approved := CouncilLanes(council), Approved(approval);
      var apart := Pick(lanes, approved, candidates, Apart);
      var reserve := Pick(lanes, approved, candidates, Reserve);
      var day := ShapeDay(council, candidates, approval);
      var (d, v) := Filled(council, candidates, size, approval);
      && |apart| == |Pick(lanes, {}, candidates, Apart)|
      && |day.disjoint| == |apart| && |day.reserve| == |reserve|
      && d == Sort(apart) && |d| == |apart|
      && (size <= |apart| + |reserve| ==> |v| == size - |d| && exists rest :: LeastOf(v, rest, multiset(reserve)))
      && Lanes(d + v) == Lanes(d) + Lanes(v)
  {
    hide Sort, LeastOf, Pick, Take, Ordered;
    var lanes, approved := CouncilLanes(council), Approved(approval);
    ApprovalAside(lanes, {}, approved, candidates, Apart);
    Filling(Pick(lanes, approved, candidates, Apart), Pick(lanes, approved, candidates, Reserve), size);
    var (d, v) := Filled(council, candidates, size, approval);
    assert Lanes(d + v) == Lanes(d) + Lanes(v);
  }

  lemma ReserveLanes(council: Panel, candidates: seq<Seat>, size: nat, approval: Approval)
    ensures forall l :: l in Lanes(Filled(council, candidates, size, approval).1) ==>
      l in CouncilLanes(council) && l in Approved(approval)
  {
    hide Filled, Approved, CouncilLanes;
    FilledMembers(council, candidates, size, approval);
    LanesOf(Filled(council, candidates, size, approval).1);
  }

  /**
   A degraded day takes every live seat off the council and exactly the shortfall from the approved
   reserve, the least of it in selection order; the audit's two lists spell the pool; and it yields a
   pool exactly when the two together reach `size` and the floors hold.
   */
  lemma {:induction false} DegradedDay(council: Panel, candidates: seq<Seat>, size: nat, floors: Floors,
      approval: Approval)
    requires size > 0 && Trim(approval.id) != ""
    requires var strict := StrictPool(council, candidates, size, floors); strict.Err? && strict.error.Insufficient?
    ensures var lanes, approved := CouncilLanes(council), Approved(approval);
      var apart := Pick(lanes, approved, candidates, Apart);
      var reserve := Pick(lanes, approved, candidates, Reserve);
      var r := WithReserve(council, candidates, size, floors, approval);
      var (d, v) := Filled(council, candidates, size, approval);
      && d == Sort(apart) && |d| == |apart| < size
      && (r.Ok? <==> |apart| + |reserve| >= size && CheckFloors(d + v, floors).None?)
      && (r.Ok? ==>
          && r.value.pool == d + v && |v| == size - |d|
          && (exists rest :: LeastOf(v, rest, multiset(reserve)))
          && r.value.audit.disjointLanes == Lanes(d) && r.value.audit.reserveLanes == Lanes(v)
          && Lanes(r.value.pool) == r.value.audit.disjointLanes + r.value.audit.reserveLanes
          && forall l :: l in r.value.audit.reserveLanes ==> l in lanes && l in approved)
  {
    hide Sort, Keep, Pick, OverlapWithin, NotIn, LeastOf, CheckFloors, StrictPool, ShapeDay, Trim, Lanes;
    StrictLaw(council, candidates, size, floors);
    DegradedPool(council, candidates, size, approval);
    FilledLaw(council, candidates, size, approval);
    ReserveLanes(council, candidates, size, approval);
  }

  /** With distinct lanes the order the candidates come in changes nothing, refusals and audit included. */
  lemma {:induction false} ReserveIgnoresOrder(council: Panel, candidates: seq<Seat>, shuffled: seq<Seat>,
      size: nat, floors: Floors, approval: Approval)
    requires DistinctLanes(candidates) && multiset(candidates) == multiset(shuffled)
    ensures WithReserve(council, candidates, size, floors, approval)
      == WithReserve(council, shuffled, size, floors, approval)
  {
    hide StrictPool, ShapeDay, OverlapWithin, NotIn, CheckFloors, Trim, DistinctLanes;
    StrictIgnoresOrder(council, candidates, shuffled, size, floors);
    ShapeIgnoresOrder(council, candidates, shuffled, approval);
  }

  lemma ShapeIgnoresOrder(council: Panel, candidates: seq<Seat>, shuffled: seq<Seat>, approval: Approval)
    requires DistinctLanes(candidates) && multiset(candidates) == multiset(shuffled)
    ensures ShapeDay(council, candidates, approval) == ShapeDay(council, shuffled, approval)
  {
    hide Pick, Sort, Ordered, LaneSet, DistinctLanes;
    var lanes, approved := CouncilLanes(council), Approved(approval);
    PickPermuted(lanes, approved, candidates, shuffled, Apart);
    PickPermuted(lanes, approved, candidates, shuffled, Reserve);
    PickPermuted(lanes, approved, candidates, shuffled, Unapproved);
    PickPermuted(lanes, approved, candidates, shuffled, NonLive);
  }
}
