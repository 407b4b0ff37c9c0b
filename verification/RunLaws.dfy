/**
 Every run of a council or a quorum, said of the waves, the pins and what the legs answer:
 crates/caddis-deliberate/src/executor.rs.
 */
module RunLaws {
  import opened Wrappers
  import Cards
  import opened Seats
  import opened Caps
  import D = Disjoint
  import opened Protocols
  import opened Votes
  import opened VoteLaws
  import S = Sessions
  import opened Executor

  // ---------- how far a run goes ----------

  /** A leg that stops a council: any but an answer. A quorum stops for a panic alone. */
  ghost predicate Stops(strict: bool, leg: Leg) {
    if strict then !leg.Answered? else leg.Panicked?
  }

  /** The number of legs in the first `k` waves. */
  ghost function LegsIn(waves: seq<seq<string>>, k: nat): nat
    requires k <= |waves|
  {
    if k == 0 then 0 else LegsIn(waves, k - 1) + |waves[k - 1]|
  }

  ghost predicate Pinned(h: Digest, pin: string, cards: Snapshot, k: nat) {
    h(Canonical(cards(k))) == pin
  }

  /**
   The first `n` legs count. Every wave they are in found the card unchanged, none of them stops the run,
   and what comes after is nothing, a wave that finds the card changed, or a leg that stops the run.
   */
  ghost predicate Ran(h: Digest, pin: string, cards: Snapshot, strict: bool, legs: Answers, waves: seq<seq<string>>,
      n: nat, stop: Stop)
  {
    && (forall i :: 0 <= i < n ==> !Stops(strict, legs(i)))
    && match stop
       case Finished => n == LegsIn(waves, |waves|) && forall j :: 0 <= j < |waves| ==> Pinned(h, pin, cards, j)
       case PinMovedAt(k) =>
         && k < |waves| && n == LegsIn(waves, k) && !Pinned(h, pin, cards, k)
         && forall j :: 0 <= j < k ==> Pinned(h, pin, cards, j)
       case LegFailed(leg) => leg == n && Stops(strict, legs(n)) && exists k :: InWave(h, pin, cards, waves, n, k)
  }

  /** Leg `n` is in wave `k`, and the card was unchanged up to that wave. */
  ghost predicate InWave(h: Digest, pin: string, cards: Snapshot, waves: seq<seq<string>>, n: nat, k: nat) {
    && k < |waves| && LegsIn(waves, k) <= n < LegsIn(waves, k + 1)
    && forall j :: 0 <= j <= k ==> Pinned(h, pin, cards, j)
  }

  lemma {:induction false} LegsFlat(waves: seq<seq<string>>, k: nat)
    requires k <= |waves|
    ensures LegsIn(waves, k) + |Flatten(waves[k..])| == |Flatten(waves)|
    decreases k
  {
    if k == 0 {
      assert waves[0..] == waves;
    } else {
      LegsFlat(waves, k - 1);
      assert waves[k - 1..][0] == waves[k - 1] && waves[k - 1..][1..] == waves[k..];
    }
  }

  lemma HaltsStop(strict: bool, leg: Leg)
    ensures Halts(strict, leg) <==> Stops(strict, leg)
  {
  }

  lemma WaveHalts(strict: bool, legs: Answers, from: nat, end: nat)
    requires from <= end
    ensures var f := FirstHalt(strict, legs, from, end);
      && (forall i :: from <= i < f ==> !Stops(strict, legs(i)))
      && (f < end ==> Stops(strict, legs(f)))
  {
    hide Halts, Stops;
    var f := FirstHalt(strict, legs, from, end);
    forall i | from <= i < f ensures !Stops(strict, legs(i)) {
      HaltsStop(strict, legs(i));
    }
    HaltsStop(strict, legs(f));
  }

  lemma RanFailed(h: Digest, pin: string, cards: Snapshot, strict: bool, legs: Answers, waves: seq<seq<string>>,
      n: nat, k: nat)
    requires InWave(h, pin, cards, waves, n, k) && Stops(strict, legs(n))
    requires forall i :: 0 <= i < n ==> !Stops(strict, legs(i))
    ensures Ran(h, pin, cards, strict, legs, waves, n, LegFailed(n))
  {
    hide InWave, Stops;
  }

  /** From wave `wi`, whose first leg is number `LegsIn(waves, wi)`, with all before it in order. */
  lemma {:induction false} CourseRan(h: Digest, pin: string, cards: Snapshot, strict: bool, legs: Answers,
      waves: seq<seq<string>>, wi: nat)
    requires wi <= |waves| && forall j :: 0 <= j < wi ==> Pinned(h, pin, cards, j)
    requires forall i :: 0 <= i < LegsIn(waves, wi) ==> !Stops(strict, legs(i))
    ensures var (n, stop) := Course(h, pin, cards, strict, legs, waves[wi..], wi, LegsIn(waves, wi));
      Ran(h, pin, cards, strict, legs, waves, n, stop)
    decreases |waves| - wi
  {
    hide FirstHalt, Canonical, Course, Stops;
    if wi == |waves| {
      CourseEnds(h, pin, cards, strict, legs, wi, LegsIn(waves, wi));
      assert waves[wi..] == [];
    } else {
      var k := LegsIn(waves, wi);
      var end := k + |waves[wi]|;
      var f := FirstHalt(strict, legs, k, end);
      WaveHalts(strict, legs, k, end);
      assert waves[wi..][0] == waves[wi] && waves[wi..][1..] == waves[wi + 1..];
      CourseStep(h, pin, cards, strict, legs, waves[wi..], wi, k);
      assert LegsIn(waves, wi + 1) == end;
      if Pinned(h, pin, cards, wi) {
        if f < end {
          RanFailed(h, pin, cards, strict, legs, waves, f, wi);
        } else {
          hide Ran;
          CourseRan(h, pin, cards, strict, legs, waves, wi + 1);
        }
      }
    }
  }

  // ---------- what the legs leave ----------

  /** Exactly the answered legs among the first `n`, in order. */
  ghost predicate Answering(places: seq<nat>, legs: Answers, n: nat) {
    && (forall j, k :: 0 <= j < k < |places| ==> places[j] < places[k])
    && (forall k :: 0 <= k < |places| ==> places[k] < n && legs(places[k]).Answered?)
    && (forall i :: 0 <= i < n && legs(i).Answered? ==> i in places)
  }

  /** The first seat of the lane. */
  ghost predicate SeatOn(x: Seat, seats: seq<Seat>, lane: string) {
    exists j :: 0 <= j < |seats| && seats[j] == x && x.lane == lane && forall i :: 0 <= i < j ==> seats[i].lane != lane
  }

  /** The row of an answered leg: the seat's names, the model that answered and the tokens it took. */
  ghost predicate Accounts(row: SessionRow, conv: string, seats: seq<Seat>, seat: Seat, leg: Leg)
    requires leg.Answered?
  {
    exists x :: SeatOn(x, seats, seat.lane)
      && row == Usage(conv, seat.lane, x.laneType, x.provider, leg.model, x.costClass, leg.tokensIn, leg.tokensOut)
  }

  /** A row and a reply for each answered leg among the first `n`. */
  ghost predicate Left(rows: seq<SessionRow>, replies: seq<Reply>, places: seq<nat>, conv: string, seats: seq<Seat>,
      legs: Answers, n: nat)
  {
    && n <= |seats| && Answering(places, legs, n) && |rows| == |replies| == |places|
    && forall k :: 0 <= k < |places| ==>
      places[k] < |seats| && Taken(rows[k], replies[k], conv, seats, seats[places[k]], legs(places[k]))
  }

  ghost predicate Taken(row: SessionRow, reply: Reply, conv: string, seats: seq<Seat>, seat: Seat, leg: Leg) {
    leg.Answered? && Accounts(row, conv, seats, seat, leg) && reply == Reply(seat.lane, leg.model, leg.position)
  }

  lemma {:induction false} SeatForIs(seats: seq<Seat>, lane: string)
    requires exists s :: s in seats && s.lane == lane
    ensures SeatOn(SeatFor(seats, lane), seats, lane)
  {
    if seats[0].lane == lane {
      assert seats[0] == SeatFor(seats, lane);
    } else {
      SeatForIs(seats[1..], lane);
      var x := SeatFor(seats, lane);
      var j :| 0 <= j < |seats[1..]| && seats[1..][j] == x && forall i :: 0 <= i < j ==> seats[1..][i].lane != lane;
      assert seats[j + 1] == x;
      forall i | 0 <= i < j + 1 ensures seats[i].lane != lane {
        if i > 0 {
          assert seats[i] == seats[1..][i - 1];
        }
      }
    }
  }

  lemma OneMoreLeft(rows: seq<SessionRow>, replies: seq<Reply>, places: seq<nat>, conv: string, seats: seq<Seat>,
      legs: Answers, n: nat, row: SessionRow, reply: Reply)
    requires n < |seats| && Left(rows, replies, places, conv, seats, legs, n)
    requires Taken(row, reply, conv, seats, seats[n], legs(n))
    ensures Left(rows + [row], replies + [reply], places + [n], conv, seats, legs, n + 1)
  {
    hide Accounts;
    assert legs(n).Answered?;
    var all, rs, ps := places + [n], rows + [row], replies + [reply];
    hide Taken;
    assert forall i :: i in all <==> i in places || i == n;
    forall k | 0 <= k < |all|
      ensures all[k] < |seats| && Taken(rs[k], ps[k], conv, seats, seats[all[k]], legs(all[k]))
    {
      if k < |places| {
        assert all[k] == places[k] && rs[k] == rows[k] && ps[k] == replies[k];
      }
    }
  }

  lemma NoneLeft(conv: string, seats: seq<Seat>, legs: Answers)
    ensures Left([], [], [], conv, seats, legs, 0)
  {
  }

  lemma StillLeft(rows: seq<SessionRow>, replies: seq<Reply>, places: seq<nat>, conv: string, seats: seq<Seat>,
      legs: Answers, n: nat)
    requires n < |seats| && Left(rows, replies, places, conv, seats, legs, n) && !legs(n).Answered?
    ensures Left(rows, replies, places, conv, seats, legs, n + 1)
  {
    hide Taken;
  }

  lemma {:induction false} LegsLeave(conv: string, seats: seq<Seat>, legs: Answers, n: nat) returns (places: seq<nat>)
    requires n <= |seats|
    ensures Left(Usages(conv, seats, legs, n), Replies(D.Lanes(seats), legs, n), places, conv, seats, legs, n)
  {
    hide Left;
    if n == 0 {
      places := [];
      NoneLeft(conv, seats, legs);
    } else {
      var m := n - 1;
      places := LegsLeave(conv, seats, legs, m);
      var rows, replies := Usages(conv, seats, legs, m), Replies(D.Lanes(seats), legs, m);
      if legs(m).Answered? {
        assert seats[m] in seats && D.Lanes(seats)[m] == seats[m].lane;
        SeatForIs(seats, seats[m].lane);
        var row := UsageRow(conv, SeatFor(seats, seats[m].lane), legs(m));
        var reply := Reply(seats[m].lane, legs(m).model, legs(m).position);
        assert Taken(row, reply, conv, seats, seats[m], legs(m));
        OneMoreLeft(rows, replies, places, conv, seats, legs, m, row, reply);
        places := places + [m];
      } else {
        assert rows + [] == rows && replies + [] == replies;
        StillLeft(rows, replies, places, conv, seats, legs, m);
      }
    }
  }

  // ---------- every run ----------

  /** The ballot the replies make, which in a quorum must also decide. */
  ghost predicate Elects(job: Job, replies: seq<Reply>, ballot: Ballot) {
    if job.strict then VoteLaws.PanelAnswer(Ok(ballot), job.seats, replies)
    else CollectAnswer(Ok(ballot), job.seats, replies) && exists ruling :: DecideAnswer(Ok(ruling), |job.seats|, ballot)
  }

  ghost predicate Denies(job: Job, replies: seq<Reply>, e: VoteErr) {
    if job.strict then VoteLaws.PanelAnswer(Err(e), job.seats, replies)
    else
      || CollectAnswer(Err(e), job.seats, replies)
      || exists ballot :: Undecided(job, replies, ballot, e)
  }

  ghost predicate Undecided(job: Job, replies: seq<Reply>, ballot: Ballot, e: VoteErr) {
    CollectAnswer(Ok(ballot), job.seats, replies) && DecideAnswer(Err(e), |job.seats|, ballot)
  }

  /** The row that closes a run that succeeded. */
  ghost function Closing(job: Job, ballot: Ballot, seal: Ballot -> string): SessionRow {
    Close(job.conv, seal(ballot), VoteLaws.Tally(ballot.replies, Ship), VoteLaws.Tally(ballot.replies, ShipWithChanges),
      VoteLaws.Tally(ballot.replies, DoNotShip))
  }

  /**
   A run of `n` legs, the usage rows and the replies they left, and how it ended: the answer, and the rows
   with the open row before them once a first wave is under way and the close row behind them if the run
   succeeds.
   */
  ghost predicate Told(r: Result<Ballot, ExecErr>, rows: seq<SessionRow>, h: Digest, job: Job, w: World,
      seal: Ballot -> string, waves: seq<seq<string>>, n: nat, stop: Stop, usages: seq<SessionRow>,
      replies: seq<Reply>, places: seq<nat>)
  {
    && Ran(h, job.pin, w.cards, job.strict, w.legs, waves, n, stop)
    && Left(usages, replies, places, job.conv, job.seats, w.legs, n)
    && match stop
       case PinMovedAt(k) =>
         && r == Err(PinMoved(job.pin, h(Canonical(w.cards(k)))))
         && rows == (if k == 0 then [] else [job.open]) + usages
       case LegFailed(leg) =>
         && r == Err(match w.legs(leg) case Refused(lane, reason) => LaneRefused(lane, reason) case _ => LanePanicked)
         && rows == [job.open] + usages
       case Finished =>
         var begun := (if waves == [] then [] else [job.open]) + usages;
         match r
         case Ok(ballot) => Elects(job, replies, ballot) && rows == begun + [Closing(job, ballot, seal)]
         case Err(VoteRefused(e)) => Denies(job, replies, e) && rows == begun
         case Err(_) => false
  }

  ghost predicate Strangers(seats: seq<Seat>, lanes: map<string, Cards.LaneType>) {
    exists i :: 0 <= i < |seats| && (seats[i].lane !in lanes || lanes[seats[i].lane] != seats[i].laneType)
  }

  ghost predicate RunAnswer(r: Result<Ballot, ExecErr>, rows: seq<SessionRow>, h: Digest, job: Job, w: World,
      seal: Ballot -> string)
  {
    match Plan(w.reg, D.Lanes(job.seats))
    case Err(e) => r == Err(Dispatch(e)) && rows == []
    case Ok(waves) =>
      if Strangers(job.seats, w.lanes) then r == Err(Identity) && rows == []
      else
        exists n: nat, stop, usages, replies, places ::
          Told(r, rows, h, job, w, seal, waves, n, stop, usages, replies, places)
  }

  lemma StrangersMean(seats: seq<Seat>, lanes: map<string, Cards.LaneType>)
    ensures Identified(seats, lanes) <==> !Strangers(seats, lanes)
  {
    assert forall i :: 0 <= i < |seats| ==> seats[i] in seats;
  }

  lemma ConcludedMeans(job: Job, replies: seq<Reply>)
    ensures var r := Concluded(job, replies);
      && (r.Ok? ==> Elects(job, replies, r.value))
      && (r.Err? ==> Denies(job, replies, r.error))
  {
    hide Collect, CollectAll, Decide, CollectAnswer, VoteLaws.PanelAnswer, DecideAnswer;
    PanelAnswers(job.seats, replies);
    CollectAnswers(job.seats, replies);
    var c := Collect(job.seats, replies);
    if c.Ok? {
      DecideAnswers(|job.seats|, c.value);
      var d := Decide(|job.seats|, c.value);
      if d.Ok? {
        assert DecideAnswer(Ok(d.value), |job.seats|, c.value);
      } else {
        assert Undecided(job, replies, c.value, d.error);
      }
    }
  }

  lemma ClosingIs(job: Job, ballot: Ballot, seal: Ballot -> string)
    ensures CloseRow(job.conv, ballot, seal) == Closing(job, ballot, seal)
  {
    hide Holders, VoteLaws.Tally;
    HoldersCounted(ballot.replies, Ship);
    HoldersCounted(ballot.replies, ShipWithChanges);
    HoldersCounted(ballot.replies, DoNotShip);
  }

  lemma CourseTold(h: Digest, job: Job, w: World, seal: Ballot -> string) returns (places: seq<nat>)
    requires Starts(job, w)
    ensures var (n, stop) := CourseOf(h, job, w);
      Told(Answer(h, job, w), Trace(h, job, w, seal), h, job, w, seal, Plan(w.reg, D.Lanes(job.seats)).value, n, stop,
        Usages(job.conv, job.seats, w.legs, n), Replies(D.Lanes(job.seats), w.legs, n), places)
  {
    hide Course, Plan, Concluded, Elects, Denies, Closing, CloseRow, Usages, Replies, Left, Ran, Canonical;
    var waves := Plan(w.reg, D.Lanes(job.seats)).value;
    var (n, stop) := CourseOf(h, job, w);
    assert waves[0..] == waves;
    CourseRan(h, job.pin, w.cards, job.strict, w.legs, waves, 0);
    places := LegsLeave(job.conv, job.seats, w.legs, n);
    var replies := Replies(D.Lanes(job.seats), w.legs, n);
    ConcludedMeans(job, replies);
    var r := Answer(h, job, w);
    if r.Ok? {
      ClosingIs(job, r.value, seal);
    }
    RanLeg(h, job.pin, w.cards, job.strict, w.legs, waves, n, stop);
  }

  lemma RanLeg(h: Digest, pin: string, cards: Snapshot, strict: bool, legs: Answers, waves: seq<seq<string>>,
      n: nat, stop: Stop)
    requires Ran(h, pin, cards, strict, legs, waves, n, stop)
    ensures stop.LegFailed? ==> waves != [] && !legs(stop.leg).Answered?
    ensures stop.PinMovedAt? ==> waves != []
  {
    hide Canonical, LegsIn;
  }

  /** Every run of a job in every world: its answer and its rows. */
  lemma {:induction false} RunAnswers(h: Digest, job: Job, w: World, seal: Ballot -> string)
    ensures RunAnswer(Answer(h, job, w), Trace(h, job, w, seal), h, job, w, seal)
  {
    StrangersMean(job.seats, w.lanes);
    hide Told, Plan, Strangers, Identified, CourseOf, Concluded;
    if Starts(job, w) {
      var places := CourseTold(h, job, w, seal);
    }
  }

  // ---------- the two bodies ----------

  ghost function IdOrNone(id: Option<string>): string {
    match id
    case None => ""
    case Some(x) => x
  }

  /** A council is run with its panel's seats in order, all of which must answer. */
  lemma {:induction false} CouncilRuns(s: S.CouncilSession)
    ensures var job, c := CouncilJob(s), s.convening;
      && job.strict && job.pin == c.pin && job.conv == c.id && |job.seats| == |c.panel|
      && (forall i :: 0 <= i < |c.panel| ==> job.seats[i] == c.panel[i].seat)
      && job.open == Open(c.id, Council, c.pin, s.stakes, IdOrNone(s.rerunOf), s.gate.actor, s.gate.wardenCard)
  {
  }

  lemma {:induction false} QuorumRuns(s: S.QuorumSession)
    ensures var job := QuorumJob(s);
      && !job.strict && job.pin == s.pin && job.conv == s.id && job.seats == s.pool
      && job.open == Open(s.id, Quorum, s.pin, s.stakes, IdOrNone(s.rerunOf), s.gate.actor, s.gate.wardenCard)
  {
  }
}
