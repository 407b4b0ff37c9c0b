/**
 The `floor` field of a quorum's ledger row: crates/caddis-deliberate/src/quorum.rs. The reader's
 documentation wants the least majority as its numerator; the writer puts the agreeing seats there,
 and the reader takes any majority.
 */
module RowFloors {
  import opened Wrappers
  import opened Text
  import opened Json
  import opened Decimals
  import opened Cards
  import opened Flat
  import opened Seats
  import opened Votes
  import S = Sessions
  import opened QuorumRows

  /** What the documentation asks of a row's floor `N/M`. */
  ghost predicate LeastMajority(floor: string) {
    ParseFloor(floor).Some? && ParseFloor(floor).value.0 == ParseFloor(floor).value.1 / 2 + 1
  }

  /** A decided session: its replies collect, and a ruling lands. */
  ghost predicate Decided(s: S.QuorumSession, replies: seq<Reply>) {
    Collect(s.pool, replies).Ok? && Decide(|s.pool|, Collect(s.pool, replies).value).Ok?
  }

  ghost function RowFor(s: S.QuorumSession, replies: seq<Reply>, digest: string): QuorumRow
    requires Decided(s, replies)
  {
    var ballot := Collect(s.pool, replies).value;
    RowOf(s, ballot, Decide(|s.pool|, ballot).value, digest)
  }

  /** How many seats took the position that was ruled. */
  ghost function Agreeing(s: S.QuorumSession, replies: seq<Reply>): nat
    requires Decided(s, replies)
  {
    var ballot := Collect(s.pool, replies).value;
    Count(ballot.replies, Decide(|s.pool|, ballot).value.position)
  }

  /**
   The floor of every decided session's row spells the agreeing seats over the pool. It is the least
   majority if and only if exactly that many agreed.
   */
  lemma {:induction false} SessionFloor(s: S.QuorumSession, replies: seq<Reply>, digest: string)
    requires 2 <= |s.pool| < U64_LIMIT && Decided(s, replies)
    ensures var r, n := RowFor(s, replies, digest), Agreeing(s, replies);
      && ParseFloor(r.floor) == Some((n, |s.pool|))
      && DecisionFloor(|s.pool|) <= n <= |s.pool|
      && (LeastMajority(r.floor) <==> n == DecisionFloor(|s.pool|))
  {
    hide Collect, Decide, Count, ParseFloor, FloorText, Gather;
    var ballot := Collect(s.pool, replies).value;
    var ruling := Decide(|s.pool|, ballot).value;
    RulingFigures(|s.pool|, ballot);
    RulingIsMajority(s.pool, replies, ruling.position);
    CollectedReplies(s.pool, replies);
    GatherFits(s.pool, replies);
    CountAtMost(ballot.replies, ruling.position);
    FloorReads(Agreeing(s, replies), |s.pool|);
  }

  lemma CountAtMost(replies: seq<Reply>, p: Position)
    ensures Count(replies, p) <= |replies|
  {
    Votes.CountsSum(replies);
    hide Count;
    assert p.Ship? || p.ShipWithChanges? || p.DoNotShip?;
  }

  // ---------- a pool of one mind ----------

  /** One reply from each seat, all of one position. */
  function Unanimous(pool: seq<Seat>, p: Position): (replies: seq<Reply>)
    ensures |replies| == |pool|
    ensures forall i :: 0 <= i < |pool| ==> replies[i] == Reply(pool[i].lane, "m", p)
  {
    seq(|pool|, i requires 0 <= i < |pool| => Reply(pool[i].lane, "m", p))
  }

  lemma UnanimousLanes(pool: seq<Seat>, p: Position)
    requires DistinctLanes(pool)
    ensures Votes.Sound(Unanimous(pool, p)) && ReplyLanes(Unanimous(pool, p)) == PoolLanes(pool)
  {
    var replies := Unanimous(pool, p);
    forall lane | lane in PoolLanes(pool) ensures lane in ReplyLanes(replies) {
      var i :| 0 <= i < |pool| && pool[i].lane == lane;
      assert replies[i] in replies;
    }
  }

  lemma {:induction false} GatheredFrom(pool: seq<Seat>, replies: seq<Reply>)
    ensures forall r :: r in Gather(pool, replies) ==> r in replies
    decreases |pool|
  {
    if pool != [] {
      GatheredFrom(pool[..|pool| - 1], replies);
    }
  }

  lemma {:induction false} AllHold(replies: seq<Reply>, p: Position)
    requires forall r :: r in replies ==> r.position == p
    ensures Count(replies, p) == |replies|
    decreases |replies|
  {
    if replies != [] {
      var front := replies[..|replies| - 1];
      assert forall r :: r in front ==> r in replies;
      assert replies[|replies| - 1] in replies;
      AllHold(front, p);
    }
  }

  lemma {:induction false} LaneCount(pool: seq<Seat>)
    requires DistinctLanes(pool)
    ensures |PoolLanes(pool)| == |pool|
    decreases |pool|
  {
    hide PoolLanes, DistinctLanes;
    if pool == [] {
      NoLanes();
    } else {
      LanesStep(pool);
      LaneCount(pool[..|pool| - 1]);
    }
  }

  /** Every pool of one mind is decided, with all its seats agreeing: only a pool of two meets the documentation. */
  lemma {:induction false} UnanimousFloor(s: S.QuorumSession, p: Position, digest: string)
    requires DistinctLanes(s.pool) && 2 <= |s.pool| < U64_LIMIT
    ensures var replies := Unanimous(s.pool, p);
      && Decided(s, replies) && Agreeing(s, replies) == |s.pool|
      && ParseFloor(RowFor(s, replies, digest).floor) == Some((|s.pool|, |s.pool|))
      && (LeastMajority(RowFor(s, replies, digest).floor) <==> |s.pool| == 2)
  {
    var replies := Unanimous(s.pool, p);
    UnanimousDecided(s, p);
    hide Decided, RowFor, Agreeing, LeastMajority, Unanimous, DistinctLanes;
    SessionFloor(s, replies, digest);
    LeastOfTwo(|s.pool|);
  }

  lemma LeastOfTwo(n: nat)
    requires n >= 2
    ensures n == DecisionFloor(n) <==> n == 2
  {
  }

  lemma UnanimousDecided(s: S.QuorumSession, p: Position)
    requires DistinctLanes(s.pool) && 2 <= |s.pool|
    ensures Decided(s, Unanimous(s.pool, p)) && Agreeing(s, Unanimous(s.pool, p)) == |s.pool|
  {
    var replies := Unanimous(s.pool, p);
    UnanimousLanes(s.pool, p);
    LaneCount(s.pool);
    VotesAndMissing(s.pool, replies);
    GatheredFrom(s.pool, replies);
    hide Unanimous, Gather, PoolLanes, ReplyLanes, Votes.Sound, DistinctLanes, Absent, Decide, Count;
    var votes := Gather(s.pool, replies);
    assert PoolLanes(s.pool) - ReplyLanes(replies) == {};
    assert |votes| == |s.pool|;
    assert forall r :: r in votes ==> r.position == p by {
      forall r | r in votes ensures r.position == p {
        assert r in replies;
      }
    }
    AllHold(votes, p);
    RulingIsMajority(s.pool, replies, p);
  }

  // ---------- one such row ----------

  function Chair(lane: string): Seat {
    Seats.Seat(lane, Http, "f", "p", "m", Free, Live, 1, None)
  }

  /** A session of three seats. */
  function Three(): S.QuorumSession {
    S.QuorumSession("c", "t", "p", [Chair("x"), Chair("y"), Chair("z")], "k", S.Small, S.Receipt("a", "w"), None, None)
  }

  lemma ThreeApart()
    ensures |Three().pool| == 3 < TWO_53 && DistinctLanes(Three().pool)
  {
  }

  /** A row whose texts are short fits the reader's cap. */
  lemma ShortFits(r: QuorumRow)
    requires Short(r) && Written(r)
    ensures Bytes(RowLine(r)) <= MAX_BYTES
  {
    hide RowFields, Bytes, Short, Written, AtMost;
    ShortTexts(r);
    ShortCounts(r);
    SixteenFields(r);
    PairsLength(RowFields(r), 500);
    hide Pairs;
    BytesBound(RowLine(r));
  }

  lemma RowParts(s: S.QuorumSession, replies: seq<Reply>, digest: string)
    requires Decided(s, replies)
    ensures var r := RowFor(s, replies, digest);
      && r.conv == s.id && r.pin == s.pin && r.council == s.council && r.stakes == StakesWord(s.stakes)
      && r.rerunOf == (if s.rerunOf.Some? then s.rerunOf.value else "") && r.actor == s.gate.actor
      && r.wardenCard == s.gate.wardenCard && r.digest == digest && |r.ruled| <= 64
      && r.floor == FloorText(Agreeing(s, replies), |s.pool|)
  {
    hide Collect, Decide, Count, FloorText, Gather, StakesWord;
    var ballot := Collect(s.pool, replies).value;
    var ruling := Decide(|s.pool|, ballot).value;
    RulingFigures(|s.pool|, ballot);
    RulingIsMajority(s.pool, replies, ruling.position);
    CollectedReplies(s.pool, replies);
  }

  lemma ThreeShort(r: QuorumRow, digest: string)
    requires var s := Three();
      && r.conv == s.id && r.pin == s.pin && r.council == s.council && r.stakes == StakesWord(s.stakes)
      && r.rerunOf == (if s.rerunOf.Some? then s.rerunOf.value else "") && r.actor == s.gate.actor
      && r.wardenCard == s.gate.wardenCard
    requires r.digest == digest && |digest| == 64 && |r.ruled| <= 64 && r.floor == FloorText(3, 3)
    ensures Short(r) && r.floor == "3/3"
  {
    assert Dec(3) == "3";
  }

  lemma NotLeast()
    ensures !LeastMajority("3/3") && Hex64(Zeros(64)) && |Zeros(64)| == 64
  {
    assert Dec(3) == "3";
    FloorReads(3, 3);
    hide ParseFloor, Zeros;
  }

  /** All three agree: the row says `3/3`, not `2/3`, and the reader accepts it. */
  lemma {:induction false} ThreeOfThreeAccepted()
    ensures var s, digest := Three(), Zeros(64);
      var replies := Unanimous(s.pool, Ship);
      && Decided(s, replies)
      && var r := RowFor(s, replies, digest);
      r.floor == "3/3" && !LeastMajority(r.floor) && ParseRow(RowLine(r)) == Ok(r)
  {
    hide *;
    var s, digest := Three(), Zeros(64);
    ThreeApart();
    NotLeast();
    UnanimousDecided(s, Ship);
    RowParts(s, Unanimous(s.pool, Ship), digest);
    ThreeShort(RowFor(s, Unanimous(s.pool, Ship), digest), digest);
    RowAccepted(s, Unanimous(s.pool, Ship), digest);
  }

  lemma RowAccepted(s: S.QuorumSession, replies: seq<Reply>, digest: string)
    requires DistinctLanes(s.pool) && 2 <= |s.pool| < TWO_53 && Hex64(digest)
    requires Decided(s, replies) && Short(RowFor(s, replies, digest))
    ensures ParseRow(RowLine(RowFor(s, replies, digest))) == Ok(RowFor(s, replies, digest))
  {
    hide Collect, Decide, ParseRow, RowOf, RowLine, Bytes, CountsHeld, Short, Written, DistinctLanes, Hex64;
    SessionRowAccepted(s, replies, digest);
    ShortFits(RowFor(s, replies, digest));
  }
}
