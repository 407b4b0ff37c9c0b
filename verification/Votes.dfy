/**
 Collecting, integrating and ruling on replies: the council's and the quorum's `collect`, the
 disagreement map, and the quorum's verdict. crates/caddis-deliberate/src/council.rs and quorum.rs.
 */
module Votes {
  import opened Wrappers
  import opened Text
  import opened BTree
  import opened Seats

  datatype Position = Ship | ShipWithChanges | DoNotShip

  function PositionWord(p: Position): string {
    match p
    case Ship => "ship"
    case ShipWithChanges => "ship_with_changes"
    case DoNotShip => "do_not_ship"
  }

  datatype Reply = Reply(lane: string, model: string, position: Position)

  datatype Ballot = Ballot(replies: seq<Reply>, missing: seq<string>)

  datatype VoteErr =
    | Defect
    | CollectIncomplete(missing: seq<string>, have: nat, floor: nat)
    | PanelIncomplete(missing: seq<string>)
    | FloorUnmet(floor: nat)

  function DecisionFloor(poolSize: nat): nat {
    poolSize / 2 + 1
  }

  // ---------- collect ----------

  function ReplyLanes(replies: seq<Reply>): set<string> {
    set r | r in replies :: r.lane
  }

  /** Each reply names the model that served it, and no lane replies twice. */
  ghost predicate Sound(replies: seq<Reply>) {
    && (forall r :: r in replies ==> r.model != "")
    && (forall i, j :: 0 <= i < j < |replies| ==> replies[i].lane != replies[j].lane)
  }

  function PoolLanes(pool: seq<Seat>): set<string> {
    set x | x in pool :: x.lane
  }

  function ReplyOf(replies: seq<Reply>, lane: string): (r: Option<Reply>)
    ensures r.Some? ==> r.value in replies && r.value.lane == lane
    ensures r.None? ==> lane !in ReplyLanes(replies)
  {
    if replies == [] then None
    else if replies[0].lane == lane then Some(replies[0])
    else ReplyOf(replies[1..], lane)
  }

  /** The replies in pool order. */
  function Gather(pool: seq<Seat>, replies: seq<Reply>): seq<Reply>
    decreases |pool|
  {
    if pool == [] then []
    else
      var r := ReplyOf(replies, pool[|pool| - 1].lane);
      Gather(pool[..|pool| - 1], replies) + if r.Some? then [r.value] else []
  }

  ghost function Absent(pool: seq<Seat>, replies: seq<Reply>): seq<string> {
    Ordered(PoolLanes(pool) - ReplyLanes(replies))
  }

  /** `quorum::collect`. */
  ghost function Collect(pool: seq<Seat>, replies: seq<Reply>): Result<Ballot, VoteErr> {
    var floor, have := DecisionFloor(|pool|), |ReplyLanes(replies)|;
    if !Sound(replies) || !(ReplyLanes(replies) <= PoolLanes(pool)) then Err(Defect)
    else if have < floor then Err(CollectIncomplete(Absent(pool, replies), have, floor))
    else Ok(Ballot(Gather(pool, replies), Absent(pool, replies)))
  }

  /** `council::collect`: nobody may be missing. */
  ghost function CollectAll(pool: seq<Seat>, replies: seq<Reply>): Result<Ballot, VoteErr> {
    if !Sound(replies) || !(ReplyLanes(replies) <= PoolLanes(pool)) then Err(Defect)
    else if Absent(pool, replies) != [] then Err(PanelIncomplete(Absent(pool, replies)))
    else Ok(Ballot(Gather(pool, replies), []))
  }

  /** The loop both bodies run over the replies, with its map from lane to reply. */
  method ByLane(replies: seq<Reply>) returns (r: Option<map<string, Reply>>)
    ensures r.Some? <==> Sound(replies)
    ensures r.Some? ==> r.value.Keys == ReplyLanes(replies)
    ensures r.Some? ==> forall lane :: lane in r.value ==> ReplyOf(replies, lane) == Some(r.value[lane])
  {
    var byLane: map<string, Reply> := map[];
    for i := 0 to |replies|
      invariant Sound(replies[..i])
      invariant byLane.Keys == ReplyLanes(replies[..i])
      invariant forall lane :: lane in byLane ==> byLane[lane] in replies[..i] && byLane[lane].lane == lane
    {
      var reply := replies[i];
      assert replies[..i + 1] == replies[..i] + [reply];
      if reply.model == "" {
        assert reply in replies;
        return None;
      }
      if reply.lane in byLane {
        var before := byLane[reply.lane];
        var j :| 0 <= j < i && replies[..i][j] == before;
        assert replies[j].lane == replies[i].lane;
        return None;
      }
      byLane := byLane[reply.lane := reply];
    }
    assert replies[..|replies|] == replies;
    forall lane | lane in byLane ensures ReplyOf(replies, lane) == Some(byLane[lane]) {
      OneReply(replies, byLane[lane]);
    }
    r := Some(byLane);
  }

  lemma OneReply(replies: seq<Reply>, x: Reply)
    requires Sound(replies) && x in replies
    ensures ReplyOf(replies, x.lane) == Some(x)
  {
    var r := ReplyOf(replies, x.lane);
    assert x.lane in ReplyLanes(replies);
    var i :| 0 <= i < |replies| && replies[i] == x;
    var j :| 0 <= j < |replies| && replies[j] == r.value;
    assert i == j;
  }

  /** The filtering of the pool that puts the replies in its order. */
  method InPoolOrder(pool: seq<Seat>, ghost replies: seq<Reply>, byLane: map<string, Reply>)
    returns (ordered: seq<Reply>)
    requires byLane.Keys == ReplyLanes(replies)
    requires forall lane :: lane in byLane ==> ReplyOf(replies, lane) == Some(byLane[lane])
    ensures ordered == Gather(pool, replies)
  {
    ordered := [];
    for i := 0 to |pool|
      invariant ordered == Gather(pool[..i], replies)
    {
      assert pool[..i + 1][..i] == pool[..i];
      LaneReplied(replies, pool[i].lane);
      hide ReplyOf, ReplyLanes;
      if pool[i].lane in byLane {
        ordered := ordered + [byLane[pool[i].lane]];
      }
    }
    assert pool[..|pool|] == pool;
  }

  /** `quorum::collect`. */
  method CollectVotes(pool: seq<Seat>, replies: seq<Reply>) returns (r: Result<Ballot, VoteErr>)
    ensures r == Collect(pool, replies)
  {
    hide Sound, Ordered, Gather, ReplyLanes, PoolLanes, ReplyOf;
    var byLane := ByLane(replies);
    if byLane.None? || !(byLane.value.Keys <= PoolLanes(pool)) {
      return Err(Defect);
    }
    var missing := Walk(PoolLanes(pool) - byLane.value.Keys);
    var floor, have := DecisionFloor(|pool|), |byLane.value.Keys|;
    if have < floor {
      return Err(CollectIncomplete(missing, have, floor));
    }
    var ordered := InPoolOrder(pool, replies, byLane.value);
    r := Ok(Ballot(ordered, missing));
  }

  /** `council::collect`: any missing seat is a refusal. */
  method CollectPanel(pool: seq<Seat>, replies: seq<Reply>) returns (r: Result<Ballot, VoteErr>)
    ensures r == CollectAll(pool, replies)
  {
    hide Sound, Ordered, Gather, ReplyLanes, PoolLanes, ReplyOf;
    var byLane := ByLane(replies);
    if byLane.None? || !(byLane.value.Keys <= PoolLanes(pool)) {
      return Err(Defect);
    }
    var missing := Walk(PoolLanes(pool) - byLane.value.Keys);
    if missing != [] {
      return Err(PanelIncomplete(missing));
    }
    var ordered := InPoolOrder(pool, replies, byLane.value);
    r := Ok(Ballot(ordered, []));
  }

  // ---------- the disagreement map ----------

  datatype Cluster = Cluster(position: Position, lanes: seq<string>)

  function InsertLane(s: seq<string>, x: string): seq<string>
    decreases |s|
  {
    if s == [] || StrLe(s[|s| - 1], x) then s + [x]
    else InsertLane(s[..|s| - 1], x) + [s[|s| - 1]]
  }

  function SortLanes(s: seq<string>): (r: seq<string>)
    ensures |r| == |s|
    decreases |s|
  {
    if s == [] then []
    else
      InsertLength(SortLanes(s[..|s| - 1]), s[|s| - 1]);
      InsertLane(SortLanes(s[..|s| - 1]), s[|s| - 1])
  }

  lemma {:induction false} InsertLength(s: seq<string>, x: string)
    ensures |InsertLane(s, x)| == |s| + 1
    ensures multiset(InsertLane(s, x)) == multiset(s) + multiset{x}
    decreases |s|
  {
    if s != [] && !StrLe(s[|s| - 1], x) {
      InsertLength(s[..|s| - 1], x);
      assert s == s[..|s| - 1] + [s[|s| - 1]];
    }
  }

  /** The lanes that took a position, as they replied. */
  function Holders(replies: seq<Reply>, p: Position): seq<string>
    decreases |replies|
  {
    if replies == [] then []
    else
      var last := replies[|replies| - 1];
      Holders(replies[..|replies| - 1], p) + if last.position == p then [last.lane] else []
  }

  const POSITIONS := [Ship, ShipWithChanges, DoNotShip]

  function Integrate(replies: seq<Reply>): (clusters: seq<Cluster>)
    ensures |clusters| == 3
    ensures forall k :: 0 <= k < 3 ==> clusters[k].position == POSITIONS[k]
    ensures forall k :: 0 <= k < 3 ==> |clusters[k].lanes| == |Holders(replies, POSITIONS[k])|
  {
    [Cluster(Ship, SortLanes(Holders(replies, Ship))),
     Cluster(ShipWithChanges, SortLanes(Holders(replies, ShipWithChanges))),
     Cluster(DoNotShip, SortLanes(Holders(replies, DoNotShip)))]
  }

  /** `integrate`: three pre-seeded lists, pushed to and then sorted. */
  method IntegrateVotes(replies: seq<Reply>) returns (clusters: seq<Cluster>)
    ensures clusters == Integrate(replies)
  {
    var lists: seq<seq<string>> := [[], [], []];
    for i := 0 to |replies|
      invariant |lists| == 3
      invariant forall k :: 0 <= k < 3 ==> lists[k] == Holders(replies[..i], POSITIONS[k])
    {
      assert replies[..i + 1][..i] == replies[..i];
      var k := match replies[i].position case Ship => 0 case ShipWithChanges => 1 case DoNotShip => 2;
      lists := lists[k := lists[k] + [replies[i].lane]];
    }
    assert replies[..|replies|] == replies;
    clusters := [
      Cluster(Ship, SortLanes(lists[0])), Cluster(ShipWithChanges, SortLanes(lists[1])),
      Cluster(DoNotShip, SortLanes(lists[2]))];
  }

  lemma {:induction false} HoldersExact(replies: seq<Reply>, p: Position, lane: string)
    ensures lane in Holders(replies, p) <==> exists r :: r in replies && r.lane == lane && r.position == p
    decreases |replies|
  {
    if replies != [] {
      var front, last := replies[..|replies| - 1], replies[|replies| - 1];
      assert replies == front + [last];
      HoldersExact(front, p, lane);
    }
  }

  ghost predicate Sorted(s: seq<string>) {
    forall i, j :: 0 <= i < j < |s| ==> StrLe(s[i], s[j])
  }

  lemma {:induction false} InsertSorts(s: seq<string>, x: string)
    requires Sorted(s)
    ensures Sorted(InsertLane(s, x))
    decreases |s|
  {
    hide StrLe;
    if s != [] {
      var front, last := s[..|s| - 1], s[|s| - 1];
      if StrLe(last, x) {
        forall i | 0 <= i < |front| ensures StrLe(s[i], x) {
          StrLeTransitive(s[i], last, x);
        }
      } else {
        InsertSorts(front, x);
        InsertLength(front, x);
        StrLeTotal(last, x);
        var r := InsertLane(front, x);
        forall i | 0 <= i < |r| ensures StrLe(r[i], last) {
          assert r[i] in multiset(r);
          assert r[i] == x || r[i] in front;
        }
      }
    }
  }

  lemma {:induction false} SortLanesLaw(s: seq<string>)
    ensures Sorted(SortLanes(s)) && multiset(SortLanes(s)) == multiset(s)
    decreases |s|
  {
    if s != [] {
      var front := s[..|s| - 1];
      SortLanesLaw(front);
      InsertSorts(SortLanes(front), s[|s| - 1]);
      InsertLength(SortLanes(front), s[|s| - 1]);
      assert s == front + [s[|s| - 1]];
    }
  }

  /** Each cluster lists, in order, exactly the lanes that took its position. */
  lemma {:induction false} ClustersExact(replies: seq<Reply>, k: nat, lane: string)
    requires k < 3
    ensures var c := Integrate(replies)[k];
      && c.position == POSITIONS[k] && Sorted(c.lanes)
      && (lane in c.lanes <==> exists r :: r in replies && r.lane == lane && r.position == c.position)
  {
    hide SortLanes, Sorted;
    var p := POSITIONS[k];
    var c := Integrate(replies)[k];
    assert c.lanes == SortLanes(Holders(replies, p));
    SortLanesLaw(Holders(replies, p));
    HoldersExact(replies, p, lane);
    assert lane in c.lanes <==> lane in multiset(c.lanes);
    assert lane in Holders(replies, p) <==> lane in multiset(Holders(replies, p));
  }

  function Count(replies: seq<Reply>, p: Position): nat {
    |Holders(replies, p)|
  }

  // ---------- the verdict ----------

  datatype Ruling = Ruling(position: Position, agreeing: seq<string>, floor: nat, poolSize: nat,
    text: string, degraded: bool)

  /** The first cluster that reaches the floor. */
  function Winner(clusters: seq<Cluster>, floor: nat): (r: Option<Cluster>)
    ensures r.Some? ==> r.value in clusters && |r.value.lanes| >= floor
    ensures r.None? ==> forall c :: c in clusters ==> |c.lanes| < floor
  {
    if clusters == [] then None
    else if |clusters[0].lanes| >= floor then Some(clusters[0])
    else Winner(clusters[1..], floor)
  }

  /** `verdict`, up to the provenance it copies: the ruling carries `*` when a seat is missing. */
  function Decide(poolSize: nat, ballot: Ballot): Result<Ruling, VoteErr> {
    var floor := DecisionFloor(poolSize);
    match Winner(Integrate(ballot.replies), floor)
    case None => Err(FloorUnmet(floor))
    case Some(c) =>
      var degraded := ballot.missing != [];
      Ok(Ruling(c.position, c.lanes, floor, poolSize,
        PositionWord(c.position) + (if degraded then "*" else ""), degraded))
  }

  // ---------- at most one position, and a stable one ----------

  lemma {:induction false} GatherFits(pool: seq<Seat>, replies: seq<Reply>)
    ensures |Gather(pool, replies)| <= |pool|
    decreases |pool|
  {
    if pool != [] {
      GatherFits(pool[..|pool| - 1], replies);
    }
  }

  /** Every reply takes exactly one of the three positions. */
  lemma {:induction false} CountsSum(replies: seq<Reply>)
    ensures Count(replies, Ship) + Count(replies, ShipWithChanges) + Count(replies, DoNotShip) == |replies|
    decreases |replies|
  {
    if replies != [] {
      CountsSum(replies[..|replies| - 1]);
    }
  }

  /** At most one position can reach the decision floor, however the pool voted. */
  lemma {:induction false} OneMajority(pool: seq<Seat>, replies: seq<Reply>, p: Position, q: Position)
    requires Count(Gather(pool, replies), p) >= DecisionFloor(|pool|)
    requires Count(Gather(pool, replies), q) >= DecisionFloor(|pool|)
    ensures p == q
  {
    GatherFits(pool, replies);
    CountsSum(Gather(pool, replies));
  }

  /** A ruling lands on exactly the position that holds a strict majority of the full pool. */
  lemma {:induction false} RulingIsMajority(pool: seq<Seat>, replies: seq<Reply>, p: Position)
    requires Collect(pool, replies).Ok?
    ensures var r := Decide(|pool|, Collect(pool, replies).value);
      && (r.Ok? && r.value.position == p <==> 2 * Count(Gather(pool, replies), p) > |pool|)
      && (r.Ok? ==>
            && |r.value.agreeing| == Count(Gather(pool, replies), r.value.position)
            && r.value.floor == DecisionFloor(|pool|))
  {
    hide Holders, Gather, Absent, SortLanes, Sound;
    var votes := Gather(pool, replies);
    var r := Decide(|pool|, Collect(pool, replies).value);
    assert POSITIONS[0] == Ship && POSITIONS[1] == ShipWithChanges && POSITIONS[2] == DoNotShip;
    assert p.Ship? || p.ShipWithChanges? || p.DoNotShip?;
    if r.Ok? {
      if 2 * Count(votes, p) > |pool| {
        OneMajority(pool, replies, p, r.value.position);
      }
    } else {
      var c := Integrate(votes);
      assert c[0] in c && c[1] in c && c[2] in c;
    }
  }

  /** More replies never take a position's seats away. */
  lemma {:induction false} CountGrows(pool: seq<Seat>, few: seq<Reply>, many: seq<Reply>, p: Position)
    requires Sound(many) && forall r :: r in few ==> r in many
    ensures Count(Gather(pool, few), p) <= Count(Gather(pool, many), p)
    decreases |pool|
  {
    hide Sound, Gather;
    if pool == [] {
      NobodyGathered(few);
    } else {
      var front, lane := pool[..|pool| - 1], pool[|pool| - 1].lane;
      CountGrows(front, few, many, p);
      CountStep(pool, few, p);
      CountStep(pool, many, p);
      if ReplyOf(few, lane).Some? {
        OneReply(many, ReplyOf(few, lane).value);
      }
    }
  }

  lemma NobodyGathered(replies: seq<Reply>)
    ensures Gather([], replies) == []
  {
  }

  /** What the last seat of the pool adds. */
  lemma CountStep(pool: seq<Seat>, replies: seq<Reply>, p: Position)
    requires pool != []
    ensures var front, r := pool[..|pool| - 1], ReplyOf(replies, pool[|pool| - 1].lane);
      && |Gather(pool, replies)| == |Gather(front, replies)| + (if r.Some? then 1 else 0)
      && Count(Gather(pool, replies), p) == Count(Gather(front, replies), p)
          + if r.Some? && r.value.position == p then 1 else 0
  {
    hide ReplyOf;
    var front, r := pool[..|pool| - 1], ReplyOf(replies, pool[|pool| - 1].lane);
    var votes := Gather(front, replies);
    if r.Some? {
      assert (votes + [r.value])[..|votes|] == votes;
    } else {
      assert votes + [] == votes;
    }
  }

  lemma SubsetCard(a: set<string>, b: set<string>)
    requires a <= b
    ensures |a| <= |b|
  {
    assert b == a + (b - a);
  }

  /**
   A ruling made while seats are missing is stable: however the missing seats might have replied, in
   whatever number and order, the larger set of replies is collected too and rules the same position.
   */
  lemma {:induction false} DegradedRulingIsStable(pool: seq<Seat>, few: seq<Reply>, many: seq<Reply>)
    requires Collect(pool, few).Ok? && Decide(|pool|, Collect(pool, few).value).Ok?
    requires Sound(many) && ReplyLanes(many) <= PoolLanes(pool) && forall r :: r in few ==> r in many
    ensures Collect(pool, many).Ok?
    ensures var before, after := Decide(|pool|, Collect(pool, few).value), Decide(|pool|, Collect(pool, many).value);
      && after.Ok? && after.value.position == before.value.position && after.value.floor == before.value.floor
      && |before.value.agreeing| <= |after.value.agreeing|
  {
    hide Sound, Gather, Absent, Decide, Count, PoolLanes;
    assert ReplyLanes(few) <= ReplyLanes(many);
    SubsetCard(ReplyLanes(few), ReplyLanes(many));
    var p := Decide(|pool|, Collect(pool, few).value).value.position;
    RulingIsMajority(pool, few, p);
    CountGrows(pool, few, many, p);
    RulingIsMajority(pool, many, p);
  }

  // ---------- everyone is a vote or missing ----------

  lemma {:induction false} VotesAndMissing(pool: seq<Seat>, replies: seq<Reply>)
    requires DistinctLanes(pool)
    ensures |Gather(pool, replies)| + |PoolLanes(pool) - ReplyLanes(replies)| == |pool|
    decreases |pool|
  {
    hide Gather, PoolLanes, ReplyLanes, DistinctLanes;
    if pool == [] {
      NobodyGathered(replies);
      NoLanes();
    } else {
      var front, lane := pool[..|pool| - 1], pool[|pool| - 1].lane;
      LanesStep(pool);
      VotesAndMissing(front, replies);
      CountStep(pool, replies, Ship);
      var here, all := ReplyLanes(replies), PoolLanes(front);
      if ReplyOf(replies, lane).Some? {
        LaneReplied(replies, lane);
        assert (all + {lane}) - here == all - here;
      } else {
        assert (all + {lane}) - here == (all - here) + {lane};
      }
    }
  }

  lemma LaneReplied(replies: seq<Reply>, lane: string)
    ensures ReplyOf(replies, lane).Some? <==> lane in ReplyLanes(replies)
  {
  }

  lemma NoLanes()
    ensures PoolLanes([]) == {}
  {
  }

  lemma LanesStep(pool: seq<Seat>)
    requires pool != [] && DistinctLanes(pool)
    ensures var front, lane := pool[..|pool| - 1], pool[|pool| - 1].lane;
      DistinctLanes(front) && lane !in PoolLanes(front) && PoolLanes(pool) == PoolLanes(front) + {lane}
  {
    assert pool == pool[..|pool| - 1] + [pool[|pool| - 1]];
  }

  /** The ballot accounts for the whole pool: the three counts and the missing seats add up to it. */
  lemma {:induction false} BallotAccountsForPool(pool: seq<Seat>, replies: seq<Reply>)
    requires DistinctLanes(pool) && Collect(pool, replies).Ok?
    ensures var b := Collect(pool, replies).value;
      Count(b.replies, Ship) + Count(b.replies, ShipWithChanges) + Count(b.replies, DoNotShip) + |b.missing| == |pool|
  {
    hide Sound, Gather, Count, PoolLanes, ReplyLanes;
    VotesAndMissing(pool, replies);
    CountsSum(Gather(pool, replies));
  }
}
