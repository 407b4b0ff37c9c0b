/**
 What collecting and deciding promise, said of the replies and the pool alone:
 crates/caddis-deliberate/src/council.rs and quorum.rs.
 */
module VoteLaws {
  import opened Wrappers
  import opened Text
  import opened BTree
  import opened Lexical
  import opened Seats
  import opened Votes

  // ---------- replies ----------

  ghost predicate Replied(replies: seq<Reply>, lane: string) {
    exists i :: 0 <= i < |replies| && replies[i].lane == lane
  }

  ghost predicate Pooled(pool: seq<Seat>, lane: string) {
    exists i :: 0 <= i < |pool| && pool[i].lane == lane
  }

  /** Every reply names its model and a lane of the pool, and no lane replies twice. */
  ghost predicate Honest(pool: seq<Seat>, replies: seq<Reply>) {
    && (forall i :: 0 <= i < |replies| ==> replies[i].model != "" && Pooled(pool, replies[i].lane))
    && (forall i, j :: 0 <= i < j < |replies| ==> replies[i].lane != replies[j].lane)
  }

  /** Exactly the lanes of the pool that did not reply, each once, in order. */
  ghost predicate AreMissing(missing: seq<string>, pool: seq<Seat>, replies: seq<Reply>) {
    && (forall i, j :: 0 <= i < j < |missing| ==> Precedes(missing[i], missing[j]))
    && (forall lane :: lane in missing <==> Pooled(pool, lane) && !Replied(replies, lane))
  }

  ghost predicate Answers(vote: Reply, seat: Seat, replies: seq<Reply>) {
    vote in replies && vote.lane == seat.lane
  }

  /** One reply for every seat of the pool that replied, in the order of the pool. */
  ghost predicate InPoolOrder(votes: seq<Reply>, places: seq<nat>, pool: seq<Seat>, replies: seq<Reply>) {
    && |votes| == |places|
    && (forall i, j :: 0 <= i < j < |places| ==> places[i] < places[j])
    && (forall i: nat :: i in places <==> i < |pool| && Replied(replies, pool[i].lane))
    && (forall k :: 0 <= k < |votes| ==> places[k] < |pool| && Answers(votes[k], pool[places[k]], replies))
  }

  ghost predicate Ordered(votes: seq<Reply>, pool: seq<Seat>, replies: seq<Reply>) {
    exists places :: InPoolOrder(votes, places, pool, replies)
  }

  ghost predicate CollectAnswer(r: Result<Ballot, VoteErr>, pool: seq<Seat>, replies: seq<Reply>) {
    var floor := |pool| / 2 + 1;
    match r
    case Ok(ballot) =>
      && Honest(pool, replies) && |replies| >= floor
      && Ordered(ballot.replies, pool, replies) && AreMissing(ballot.missing, pool, replies)
    case Err(Defect) => !Honest(pool, replies)
    case Err(CollectIncomplete(missing, have, want)) =>
      Honest(pool, replies) && have == |replies| < want == floor && AreMissing(missing, pool, replies)
    case Err(_) => false
  }

  ghost predicate PanelAnswer(r: Result<Ballot, VoteErr>, pool: seq<Seat>, replies: seq<Reply>) {
    match r
    case Ok(ballot) =>
      && Honest(pool, replies) && (forall i :: 0 <= i < |pool| ==> Replied(replies, pool[i].lane))
      && Ordered(ballot.replies, pool, replies) && ballot.missing == []
    case Err(Defect) => !Honest(pool, replies)
    case Err(PanelIncomplete(missing)) =>
      Honest(pool, replies) && missing != [] && AreMissing(missing, pool, replies)
    case Err(_) => false
  }

  lemma ReplyLanesMean(replies: seq<Reply>)
    ensures forall lane :: lane in ReplyLanes(replies) <==> Replied(replies, lane)
  {
    forall i | 0 <= i < |replies| ensures replies[i].lane in ReplyLanes(replies) {
      assert replies[i] in replies;
    }
  }

  lemma PoolLanesMean(pool: seq<Seat>)
    ensures forall lane :: lane in PoolLanes(pool) <==> Pooled(pool, lane)
  {
    forall i | 0 <= i < |pool| ensures pool[i].lane in PoolLanes(pool) {
      assert pool[i] in pool;
    }
  }

  lemma HonestMeans(pool: seq<Seat>, replies: seq<Reply>)
    ensures Honest(pool, replies) <==> Votes.Sound(replies) && ReplyLanes(replies) <= PoolLanes(pool)
  {
    ReplyLanesMean(replies);
    PoolLanesMean(pool);
    hide ReplyLanes, PoolLanes, Pooled;
    assert forall i :: 0 <= i < |replies| ==> replies[i] in replies && Replied(replies, replies[i].lane);
  }

  lemma {:induction false} DistinctReplies(replies: seq<Reply>)
    requires forall i, j :: 0 <= i < j < |replies| ==> replies[i].lane != replies[j].lane
    ensures |ReplyLanes(replies)| == |replies|
  {
    if replies == [] {
      assert ReplyLanes(replies) == {};
    } else {
      var n := |replies| - 1;
      var front, last := replies[..n], replies[n];
      DistinctReplies(front);
      assert replies == front + [last];
      assert last.lane !in ReplyLanes(front);
      assert ReplyLanes(replies) == ReplyLanes(front) + {last.lane};
    }
  }

  lemma AbsentMeans(pool: seq<Seat>, replies: seq<Reply>)
    ensures AreMissing(Absent(pool, replies), pool, replies)
  {
    ReplyLanesMean(replies);
    PoolLanesMean(pool);
    var missing := Absent(pool, replies);
    forall i, j | 0 <= i < j < |missing| ensures Precedes(missing[i], missing[j]) {
      OrderIsLexical(missing[i], missing[j]);
    }
    hide ReplyLanes, PoolLanes, Pooled, Replied, Precedes, Ascending;
  }

  lemma {:induction false} GatherMeans(pool: seq<Seat>, replies: seq<Reply>) returns (places: seq<nat>)
    ensures InPoolOrder(Gather(pool, replies), places, pool, replies)
    decreases |pool|
  {
    hide Replied, ReplyLanes, ReplyOf;
    if pool == [] {
      places := [];
    } else {
      var n := |pool| - 1;
      var before := GatherMeans(pool[..n], replies);
      LaneReplied(replies, pool[n].lane);
      ReplyLanesMean(replies);
      var r := ReplyOf(replies, pool[n].lane);
      var votes := Gather(pool[..n], replies);
      if r.Some? {
        places := before + [n];
        LastPlace(votes, before, pool, replies, r.value);
      } else {
        places := before;
        assert votes + [] == votes;
        SkippedPlace(votes, before, pool, replies);
      }
    }
  }

  lemma SkippedPlace(votes: seq<Reply>, before: seq<nat>, pool: seq<Seat>, replies: seq<Reply>)
    requires pool != [] && InPoolOrder(votes, before, pool[..|pool| - 1], replies)
    requires !Replied(replies, pool[|pool| - 1].lane)
    ensures InPoolOrder(votes, before, pool, replies)
  {
    hide Replied, Answers;
    var n := |pool| - 1;
    assert forall i :: 0 <= i < n ==> pool[..n][i] == pool[i];
  }

  lemma LastPlace(votes: seq<Reply>, before: seq<nat>, pool: seq<Seat>, replies: seq<Reply>, vote: Reply)
    requires pool != [] && InPoolOrder(votes, before, pool[..|pool| - 1], replies)
    requires Replied(replies, pool[|pool| - 1].lane) && Answers(vote, pool[|pool| - 1], replies)
    ensures InPoolOrder(votes + [vote], before + [|pool| - 1], pool, replies)
  {
    hide Replied, Answers;
    var n := |pool| - 1;
    var places, all := before + [n], votes + [vote];
    assert forall i :: 0 <= i < n ==> pool[..n][i] == pool[i];
    forall k | 0 <= k < |before| ensures before[k] < n {
      assert before[k] in before;
    }
    forall i: nat ensures i in places <==> i < |pool| && Replied(replies, pool[i].lane) {
      assert i in places <==> i in before || i == n;
    }
    forall k | 0 <= k < |places| ensures places[k] < |pool| && Answers(all[k], pool[places[k]], replies) {
      if k < |before| {
        assert Answers(votes[k], pool[..n][before[k]], replies);
      }
    }
  }

  /** Every answer of the quorum's collection. */
  lemma {:induction false} CollectAnswers(pool: seq<Seat>, replies: seq<Reply>)
    ensures CollectAnswer(Collect(pool, replies), pool, replies)
  {
    hide Honest, Gather, ReplyLanes, PoolLanes, AreMissing, InPoolOrder, Absent, Votes.Sound;
    HonestMeans(pool, replies);
    AbsentMeans(pool, replies);
    var places := GatherMeans(pool, replies);
    if Honest(pool, replies) {
      HonestCount(pool, replies);
    }
  }

  lemma HonestCount(pool: seq<Seat>, replies: seq<Reply>)
    requires Honest(pool, replies)
    ensures |ReplyLanes(replies)| == |replies|
  {
    hide Pooled;
    DistinctReplies(replies);
  }

  /** Every answer of the council's collection. */
  lemma {:induction false} PanelAnswers(pool: seq<Seat>, replies: seq<Reply>)
    ensures PanelAnswer(CollectAll(pool, replies), pool, replies)
  {
    hide Honest, Gather, ReplyLanes, PoolLanes, InPoolOrder, Absent, Votes.Sound, Replied;
    HonestMeans(pool, replies);
    AbsentMeans(pool, replies);
    var places := GatherMeans(pool, replies);
    forall i | 0 <= i < |pool| && Absent(pool, replies) == [] ensures Replied(replies, pool[i].lane) {
      assert Pooled(pool, pool[i].lane);
      assert pool[i].lane !in Absent(pool, replies);
    }
  }

  // ---------- the map and the ruling ----------

  /** How many of the replies take the position. */
  ghost function Tally(replies: seq<Reply>, p: Position): nat {
    |TakerPlaces(replies, p)|
  }

  ghost function TakerPlaces(replies: seq<Reply>, p: Position): set<nat> {
    set i: nat | i < |replies| && replies[i].position == p
  }

  /** The lanes of the replies that take the position, one for each, in order. */
  ghost predicate Takers(lanes: seq<string>, replies: seq<Reply>, p: Position) {
    && |lanes| == Tally(replies, p)
    && (forall i, j :: 0 <= i < j < |lanes| ==> lanes[i] == lanes[j] || Precedes(lanes[i], lanes[j]))
    && (forall lane :: lane in lanes <==>
          exists i :: 0 <= i < |replies| && replies[i].lane == lane && replies[i].position == p)
  }

  ghost predicate MapAnswer(clusters: seq<Cluster>, replies: seq<Reply>) {
    && |clusters| == 3 && clusters[0].position.Ship? && clusters[1].position.ShipWithChanges?
    && clusters[2].position.DoNotShip?
    && (forall k :: 0 <= k < 3 ==> Takers(clusters[k].lanes, replies, clusters[k].position))
  }

  ghost function Word(p: Position): string {
    if p.Ship? then "ship" else if p.ShipWithChanges? then "ship_with_changes" else "do_not_ship"
  }

  /** Ship comes before ship with changes, and both before do not ship. */
  ghost predicate Earlier(p: Position, q: Position) {
    (p.Ship? && !q.Ship?) || (p.ShipWithChanges? && q.DoNotShip?)
  }

  ghost predicate DecideAnswer(r: Result<Ruling, VoteErr>, poolSize: nat, ballot: Ballot) {
    var floor := poolSize / 2 + 1;
    match r
    case Ok(ruling) =>
      && Tally(ballot.replies, ruling.position) >= floor == ruling.floor && ruling.poolSize == poolSize
      && (forall q :: Earlier(q, ruling.position) ==> Tally(ballot.replies, q) < floor)
      && Takers(ruling.agreeing, ballot.replies, ruling.position)
      && ruling.degraded == (ballot.missing != [])
      && ruling.text == Word(ruling.position) + if ballot.missing == [] then "" else "*"
    case Err(FloorUnmet(want)) => want == floor && forall p :: Tally(ballot.replies, p) < floor
    case Err(_) => false
  }

  lemma TallySnoc(replies: seq<Reply>, p: Position)
    requires replies != []
    ensures var n := |replies| - 1;
      Tally(replies, p) == Tally(replies[..n], p) + if replies[n].position == p then 1 else 0
  {
    var n := |replies| - 1;
    var front := TakerPlaces(replies[..n], p);
    assert TakerPlaces(replies, p) == if replies[n].position == p then front + {n} else front;
  }

  lemma {:induction false} HoldersCounted(replies: seq<Reply>, p: Position)
    ensures |Holders(replies, p)| == Tally(replies, p)
    decreases |replies|
  {
    if replies == [] {
      assert TakerPlaces(replies, p) == {};
    } else {
      TallySnoc(replies, p);
      hide Tally;
      HoldersCounted(replies[..|replies| - 1], p);
    }
  }

  lemma TakersAre(replies: seq<Reply>, p: Position)
    ensures Takers(SortLanes(Holders(replies, p)), replies, p)
  {
    hide SortLanes, Holders, Precedes, StrLe, Tally;
    var holders := Holders(replies, p);
    var lanes := SortLanes(holders);
    HoldersCounted(replies, p);
    SortLanesLaw(holders);
    forall i, j | 0 <= i < j < |lanes| ensures lanes[i] == lanes[j] || Precedes(lanes[i], lanes[j]) {
      OrderIsLexical(lanes[i], lanes[j]);
    }
    SameMembers(lanes, holders);
    forall lane ensures lane in lanes <==>
      exists i :: 0 <= i < |replies| && replies[i].lane == lane && replies[i].position == p
    {
      HoldersExact(replies, p, lane);
    }
  }

  lemma SameMembers(a: seq<string>, b: seq<string>)
    requires multiset(a) == multiset(b)
    ensures forall x :: x in a <==> x in b
  {
    forall x ensures x in a <==> x in b {
      assert x in multiset(a) <==> x in multiset(b);
    }
  }

  /** The disagreement map: three clusters in the fixed order, each with its takers. */
  lemma {:induction false} MapAnswers(replies: seq<Reply>)
    ensures MapAnswer(Integrate(replies), replies)
  {
    hide SortLanes, Holders, Takers;
    TakersAre(replies, Ship);
    TakersAre(replies, ShipWithChanges);
    TakersAre(replies, DoNotShip);
    assert POSITIONS[0] == Ship && POSITIONS[1] == ShipWithChanges && POSITIONS[2] == DoNotShip;
  }

  lemma FirstReaches(a: Cluster, b: Cluster, c: Cluster, floor: nat)
    ensures Winner([a, b, c], floor) ==
      if |a.lanes| >= floor then Some(a)
      else if |b.lanes| >= floor then Some(b)
      else if |c.lanes| >= floor then Some(c)
      else None
  {
    assert [a, b, c][1..] == [b, c] && [b, c][1..] == [c] && [c][1..] == [];
  }

  lemma Ruled(poolSize: nat, ballot: Ballot, c: Cluster)
    requires Winner(Integrate(ballot.replies), poolSize / 2 + 1) == Some(c)
    requires Takers(c.lanes, ballot.replies, c.position) && |c.lanes| >= poolSize / 2 + 1
    requires forall q :: Earlier(q, c.position) ==> Tally(ballot.replies, q) < poolSize / 2 + 1
    ensures DecideAnswer(Decide(poolSize, ballot), poolSize, ballot)
  {
    hide Integrate, Winner, Tally, Takers, Earlier;
    TakersCount(c.lanes, ballot.replies, c.position);
    assert PositionWord(c.position) == Word(c.position);
    hide PositionWord, Word;
  }

  lemma Unruled(poolSize: nat, ballot: Ballot)
    requires Winner(Integrate(ballot.replies), poolSize / 2 + 1) == None
    requires forall p :: Tally(ballot.replies, p) < poolSize / 2 + 1
    ensures DecideAnswer(Decide(poolSize, ballot), poolSize, ballot)
  {
    hide Integrate, Winner, Tally, Takers;
  }

  lemma TakersCount(lanes: seq<string>, replies: seq<Reply>, p: Position)
    requires Takers(lanes, replies, p)
    ensures |lanes| == Tally(replies, p)
  {
  }

  lemma Verdict(poolSize: nat, ballot: Ballot, a: Cluster, b: Cluster, c: Cluster)
    requires Integrate(ballot.replies) == [a, b, c]
    requires a.position.Ship? && b.position.ShipWithChanges? && c.position.DoNotShip?
    requires Takers(a.lanes, ballot.replies, Ship) && Takers(b.lanes, ballot.replies, ShipWithChanges)
    requires Takers(c.lanes, ballot.replies, DoNotShip)
    ensures DecideAnswer(Decide(poolSize, ballot), poolSize, ballot)
  {
    hide Integrate, Winner, Tally, Takers, Decide, DecideAnswer;
    var floor := poolSize / 2 + 1;
    FirstReaches(a, b, c, floor);
    TakersCount(a.lanes, ballot.replies, Ship);
    TakersCount(b.lanes, ballot.replies, ShipWithChanges);
    TakersCount(c.lanes, ballot.replies, DoNotShip);
    if |a.lanes| >= floor {
      Ruled(poolSize, ballot, a);
    } else if |b.lanes| >= floor {
      Ruled(poolSize, ballot, b);
    } else if |c.lanes| >= floor {
      Ruled(poolSize, ballot, c);
    } else {
      forall p ensures Tally(ballot.replies, p) < floor {
        assert p.Ship? || p.ShipWithChanges? || p.DoNotShip?;
      }
      Unruled(poolSize, ballot);
    }
  }

  /** Every answer of the verdict. */
  lemma {:induction false} DecideAnswers(poolSize: nat, ballot: Ballot)
    ensures DecideAnswer(Decide(poolSize, ballot), poolSize, ballot)
  {
    hide Integrate, Takers, DecideAnswer, Decide;
    var m := Integrate(ballot.replies);
    MapAnswers(ballot.replies);
    assert m == [m[0], m[1], m[2]];
    Verdict(poolSize, ballot, m[0], m[1], m[2]);
  }
}
