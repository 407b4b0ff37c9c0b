/**
 Running a session: waves from the one planner, the pin checked before each, a row for every answered
 leg, and then the verdict. crates/caddis-deliberate/src/executor.rs. What the legs of a wave answer,
 and the card found before each wave, are parameters; a wave joins all its legs before the next.
 */
module Executor {
  import opened Wrappers
  import opened Cards
  import opened Seats
  import opened Caps
  import D = Disjoint
  import opened Protocols
  import opened Votes
  import S = Sessions
  import QuorumRows

  datatype Leg =
    | Answered(model: string, position: Position, tokensIn: nat, tokensOut: nat)
    | Refused(lane: string, reason: string)
    | Panicked

  datatype SessionRow =
    | Open(conv: string, kind: Kind, pin: string, stakes: S.Stakes, rerunOf: string, actor: string, wardenCard: string)
    | Usage(conv: string, lane: string, laneType: LaneType, provider: string, model: string, costClass: CostClass,
        tokensIn: nat, tokensOut: nat)
    | Close(conv: string, digest: string, ship: nat, shipWithChanges: nat, doNotShip: nat)

  /** How the walk over the waves ended. */
  datatype Stop = Finished | PinMovedAt(wave: nat) | LegFailed(leg: nat)

  datatype ExecErr =
    | Dispatch(capsErr: CapsErr)
    | Identity
    | PinMoved(pinned: string, actual: string)
    | LaneRefused(lane: string, reason: string)
    | LanePanicked
    | VoteRefused(voteErr: VoteErr)

  type Snapshot = nat -> Protocol
  type Answers = nat -> Leg

  // ---------- the waves ----------

  /** A council stops at the first leg that does not answer, a quorum only at one that panicked. */
  predicate Halts(strict: bool, leg: Leg) {
    leg.Panicked? || (strict && leg.Refused?)
  }

  /** The first leg of `from..end` that stops the run, or `end`. */
  function FirstHalt(strict: bool, legs: Answers, from: nat, end: nat): (k: nat)
    requires from <= end
    ensures from <= k <= end && (k < end ==> Halts(strict, legs(k)))
    ensures forall i :: from <= i < k ==> !Halts(strict, legs(i))
    decreases end - from
  {
    if from == end || Halts(strict, legs(from)) then from else FirstHalt(strict, legs, from + 1, end)
  }

  /** How many legs are taken into account from wave `wi`, whose first leg is number `k`, and why no more. */
  function Course(h: Digest, pin: string, cards: Snapshot, strict: bool, legs: Answers, waves: seq<seq<string>>,
      wi: nat, k: nat): (nat, Stop)
    decreases |waves|
  {
    if waves == [] then (k, Finished)
    else if Pin(h, cards(wi)) != pin then (k, PinMovedAt(wi))
    else
      var end := k + |waves[0]|;
      var f := FirstHalt(strict, legs, k, end);
      if f < end then (f, LegFailed(f)) else Course(h, pin, cards, strict, legs, waves[1..], wi + 1, end)
  }

  function Replies(lanes: seq<string>, legs: Answers, n: nat): seq<Reply>
    requires n <= |lanes|
  {
    if n == 0 then []
    else
      var leg := legs(n - 1);
      Replies(lanes, legs, n - 1) + if leg.Answered? then [Reply(lanes[n - 1], leg.model, leg.position)] else []
  }

  function SeatFor(seats: seq<Seat>, lane: string): (x: Seat)
    requires exists s :: s in seats && s.lane == lane
    ensures x in seats && x.lane == lane
  {
    if seats[0].lane == lane then seats[0] else SeatFor(seats[1..], lane)
  }

  function UsageRow(conv: string, x: Seat, leg: Leg): SessionRow
    requires leg.Answered?
  {
    Usage(conv, x.lane, x.laneType, x.provider, leg.model, x.costClass, leg.tokensIn, leg.tokensOut)
  }

  /** The usage rows of the first `n` legs, in the order of the seats. */
  function Usages(conv: string, seats: seq<Seat>, legs: Answers, n: nat): seq<SessionRow>
    requires n <= |seats|
  {
    if n == 0 then []
    else
      var leg := legs(n - 1);
      Usages(conv, seats, legs, n - 1)
        + if leg.Answered? then [UsageRow(conv, SeatFor(seats, seats[n - 1].lane), leg)] else []
  }

  function OpenedBy(open: SessionRow, waves: seq<seq<string>>, stop: Stop): seq<SessionRow> {
    if waves == [] || stop == PinMovedAt(0) then [] else [open]
  }

  lemma FirstWave(waves: seq<seq<string>>)
    requires waves != []
    ensures Flatten(waves) == waves[0] + Flatten(waves[1..])
  {
  }

  lemma {:induction false} CourseBound(h: Digest, pin: string, cards: Snapshot, strict: bool, legs: Answers,
      waves: seq<seq<string>>, wi: nat, k: nat)
    ensures var (n, stop) := Course(h, pin, cards, strict, legs, waves, wi, k);
      && k <= n <= k + |Flatten(waves)|
      && (stop.Finished? ==> n == k + |Flatten(waves)|)
      && (forall i :: k <= i < n ==> !Halts(strict, legs(i)))
      && (stop.LegFailed? ==> stop.leg == n < k + |Flatten(waves)| && Halts(strict, legs(n)))
    decreases |waves|
  {
    hide Pin, Flatten, Halts;
    if waves == [] {
      NoWavesLeft(waves);
    } else {
      FirstWave(waves);
      var end := k + |waves[0]|;
      if Pin(h, cards(wi)) == pin && FirstHalt(strict, legs, k, end) == end {
        CourseBound(h, pin, cards, strict, legs, waves[1..], wi + 1, end);
      }
    }
  }

  /** A pin that moved before a wave leaves exactly the legs of the waves before it. */
  lemma {:induction false} CoursePinMoved(h: Digest, pin: string, cards: Snapshot, strict: bool, legs: Answers,
      waves: seq<seq<string>>, wi: nat, k: nat)
    ensures var (n, stop) := Course(h, pin, cards, strict, legs, waves, wi, k);
      stop.PinMovedAt? ==>
        && wi <= stop.wave < wi + |waves| && n == k + |Flatten(waves[..stop.wave - wi])|
        && Pin(h, cards(stop.wave)) != pin
    decreases |waves|
  {
    hide Pin, Halts, FirstHalt;
    if waves != [] {
      if Pin(h, cards(wi)) != pin {
        assert waves[..0] == [];
      } else {
        var end := k + |waves[0]|;
        if FirstHalt(strict, legs, k, end) >= end {
          hide Flatten;
          CoursePinMoved(h, pin, cards, strict, legs, waves[1..], wi + 1, end);
          var (n, stop) := Course(h, pin, cards, strict, legs, waves[1..], wi + 1, end);
          if stop.PinMovedAt? {
            var j := stop.wave - wi;
            assert waves[..j][1..] == waves[1..][..j - 1];
            FirstWave(waves[..j]);
          }
        }
      }
    }
  }

  /** What the rows, replies and log hold after the first `n` legs. */
  ghost predicate Recorded(conv: string, seats: seq<Seat>, legs: Answers, strict: bool, n: nat,
      rows: seq<SessionRow>, replies: seq<Reply>, log: seq<string>)
  {
    && n <= |seats| && rows == Usages(conv, seats, legs, n) && replies == Replies(D.Lanes(seats), legs, n)
    && log == Names(replies)
  }

  function Names(replies: seq<Reply>): seq<string> {
    seq(|replies|, i requires 0 <= i < |replies| => replies[i].lane)
  }

  /** The joined results of one wave, in its order: a row, a log entry and a reply for each answered leg. */
  method TakeResults(conv: string, seats: seq<Seat>, strict: bool, legs: Answers, from: nat, end: nat,
      rows0: seq<SessionRow>, replies0: seq<Reply>, log0: seq<string>)
    returns (rows: seq<SessionRow>, replies: seq<Reply>, log: seq<string>, n: nat)
    requires from <= end <= |seats| && Recorded(conv, seats, legs, strict, from, rows0, replies0, log0)
    ensures n == FirstHalt(strict, legs, from, end) && Recorded(conv, seats, legs, strict, n, rows, replies, log)
  {
    rows, replies, log, n := rows0, replies0, log0, from;
    while n < end
      invariant from <= n <= end
      invariant FirstHalt(strict, legs, from, end) == FirstHalt(strict, legs, n, end)
      invariant Recorded(conv, seats, legs, strict, n, rows, replies, log)
    {
      var leg := legs(n);
      if Halts(strict, leg) {
        return;
      }
      if leg.Answered? {
        assert seats[n] in seats && D.Lanes(seats)[n] == seats[n].lane;
        rows := rows + [UsageRow(conv, SeatFor(seats, seats[n].lane), leg)];
        replies := replies + [Reply(seats[n].lane, leg.model, leg.position)];
        log := log + [seats[n].lane];
      }
      n := n + 1;
    }
  }

  lemma NothingTaken(conv: string, seats: seq<Seat>, legs: Answers, strict: bool)
    ensures Recorded(conv, seats, legs, strict, 0, [], [], [])
  {
  }

  lemma CourseStep(h: Digest, pin: string, cards: Snapshot, strict: bool, legs: Answers, waves: seq<seq<string>>,
      wi: nat, k: nat)
    requires waves != []
    ensures var end := k + |waves[0]|;
      var f := FirstHalt(strict, legs, k, end);
      Course(h, pin, cards, strict, legs, waves, wi, k) ==
        if Pin(h, cards(wi)) != pin then (k, PinMovedAt(wi))
        else if f < end then (f, LegFailed(f))
        else Course(h, pin, cards, strict, legs, waves[1..], wi + 1, end)
  {
    hide Pin, FirstHalt;
  }

  lemma CourseEnds(h: Digest, pin: string, cards: Snapshot, strict: bool, legs: Answers, wi: nat, k: nat)
    ensures Course(h, pin, cards, strict, legs, [], wi, k) == (k, Finished)
  {
  }

  /** The loop over the waves: pin, open row, then the results of the wave. */
  method RunWaves(h: Digest, open: SessionRow, conv: string, seats: seq<Seat>, pin: string, cards: Snapshot,
      strict: bool, legs: Answers, waves: seq<seq<string>>)
    returns (rows: seq<SessionRow>, replies: seq<Reply>, log: seq<string>, stop: Stop, n: nat)
    requires Flatten(waves) == D.Lanes(seats)
    ensures (n, stop) == Course(h, pin, cards, strict, legs, waves, 0, 0) && n <= |seats|
    ensures rows == OpenedBy(open, waves, stop) + Usages(conv, seats, legs, n)
    ensures replies == Replies(D.Lanes(seats), legs, n) && log == Names(replies)
  {
    hide Pin, Flatten, Halts, FirstHalt, Course, Usages, Replies, Names;
    NothingTaken(conv, seats, legs, strict);
    var head: seq<SessionRow>, usages: seq<SessionRow> := [], [];
    replies, log, n := [], [], 0;
    assert waves[0..] == waves;
    var wi := 0;
    while wi < |waves|
      invariant wi <= |waves| && n + |Flatten(waves[wi..])| == |seats|
      invariant Course(h, pin, cards, strict, legs, waves, 0, 0)
        == Course(h, pin, cards, strict, legs, waves[wi..], wi, n)
      invariant head == if wi == 0 then [] else [open]
      invariant Recorded(conv, seats, legs, strict, n, usages, replies, log)
    {
      var wave := waves[wi];
      assert waves[wi..][0] == wave && waves[wi..][1..] == waves[wi + 1..];
      FirstWave(waves[wi..]);
      CourseStep(h, pin, cards, strict, legs, waves[wi..], wi, n);
      if Pin(h, cards(wi)) != pin {
        stop := PinMovedAt(wi);
        rows := head + usages;
        return;
      }
      if wi == 0 {
        head := [open];
      }
      var end := n + |wave|;
      usages, replies, log, n := TakeResults(conv, seats, strict, legs, n, end, usages, replies, log);
      if n < end {
        stop := LegFailed(n);
        rows := head + usages;
        return;
      }
      wi := wi + 1;
    }
    NoWavesLeft(waves);
    CourseEnds(h, pin, cards, strict, legs, wi, n);
    stop := Finished;
    rows := head + usages;
  }

  lemma NoWavesLeft(waves: seq<seq<string>>)
    ensures waves[|waves|..] == [] && Flatten([]) == []
  {
  }

  // ---------- a whole session ----------

  /** What is run: the row that opens it, its seats and its pin; a council or a quorum. */
  datatype Job = Job(open: SessionRow, conv: string, seats: seq<Seat>, pin: string, strict: bool)

  /** What it meets: the card before each wave, the lanes at hand, what each leg answers. */
  datatype World = World(cards: Snapshot, reg: Registry, lanes: map<string, LaneType>, legs: Answers)

  predicate Identified(seats: seq<Seat>, lanes: map<string, LaneType>) {
    forall x :: x in seats ==> x.lane in lanes && lanes[x.lane] == x.laneType
  }

  /** `collect` and, for a quorum, the verdict that must land. */
  ghost function Concluded(job: Job, replies: seq<Reply>): Result<Ballot, VoteErr> {
    if job.strict then CollectAll(job.seats, replies)
    else
      match Collect(job.seats, replies)
      case Err(e) => Err(e)
      case Ok(ballot) =>
        match Decide(|job.seats|, ballot)
        case Err(e) => Err(e)
        case Ok(_) => Ok(ballot)
  }

  function CloseRow(conv: string, ballot: Ballot, seal: Ballot -> string): SessionRow {
    Close(conv, seal(ballot), Count(ballot.replies, Ship), Count(ballot.replies, ShipWithChanges),
      Count(ballot.replies, DoNotShip))
  }

  predicate Starts(job: Job, w: World) {
    Plan(w.reg, D.Lanes(job.seats)).Ok? && Identified(job.seats, w.lanes)
  }

  function CourseOf(h: Digest, job: Job, w: World): (c: (nat, Stop))
    requires Starts(job, w)
    ensures c.0 <= |job.seats| && (c.1.Finished? ==> c.0 == |job.seats|)
    ensures forall i :: 0 <= i < c.0 ==> !Halts(job.strict, w.legs(i))
  {
    var waves := Plan(w.reg, D.Lanes(job.seats)).value;
    PlanSpells(w.reg, D.Lanes(job.seats));
    CourseBound(h, job.pin, w.cards, job.strict, w.legs, waves, 0, 0);
    Course(h, job.pin, w.cards, job.strict, w.legs, waves, 0, 0)
  }

  ghost function Answer(h: Digest, job: Job, w: World): Result<Ballot, ExecErr> {
    match Plan(w.reg, D.Lanes(job.seats))
    case Err(e) => Err(Dispatch(e))
    case Ok(_) =>
      if !Identified(job.seats, w.lanes) then Err(Identity)
      else
        var (n, stop) := CourseOf(h, job, w);
        match stop
        case PinMovedAt(wave) => Err(PinMoved(job.pin, Pin(h, w.cards(wave))))
        case LegFailed(leg) =>
          Err(if w.legs(leg).Refused? then LaneRefused(w.legs(leg).lane, w.legs(leg).reason) else LanePanicked)
        case Finished =>
          match Concluded(job, Replies(D.Lanes(job.seats), w.legs, n))
          case Err(e) => Err(VoteRefused(e))
          case Ok(ballot) => Ok(ballot)
  }

  ghost function Trace(h: Digest, job: Job, w: World, seal: Ballot -> string): seq<SessionRow> {
    if !Starts(job, w) then []
    else
      var (n, stop) := CourseOf(h, job, w);
      var answer := Answer(h, job, w);
      OpenedBy(job.open, Plan(w.reg, D.Lanes(job.seats)).value, stop) + Usages(job.conv, job.seats, w.legs, n)
        + if answer.Ok? then [CloseRow(job.conv, answer.value, seal)] else []
  }

  method CheckIdentity(seats: seq<Seat>, lanes: map<string, LaneType>) returns (ok: bool)
    ensures ok <==> Identified(seats, lanes)
  {
    for i := 0 to |seats|
      invariant forall j :: 0 <= j < i ==> seats[j].lane in lanes && lanes[seats[j].lane] == seats[j].laneType
    {
      if seats[i].lane !in lanes || lanes[seats[i].lane] != seats[i].laneType {
        assert seats[i] in seats;
        return false;
      }
    }
    ok := true;
  }

  method Conclude(job: Job, replies: seq<Reply>) returns (r: Result<Ballot, VoteErr>)
    ensures r == Concluded(job, replies)
  {
    hide Collect, CollectAll, Decide;
    if job.strict {
      r := CollectPanel(job.seats, replies);
      return;
    }
    r := CollectVotes(job.seats, replies);
    if r.Ok? {
      var ruling := Decide(|job.seats|, r.value);
      if ruling.Err? {
        r := Err(ruling.error);
      }
    }
  }

  /** `run_council` and `run_quorum`, whose steps differ only where a job is strict. */
  method RunSession(h: Digest, job: Job, w: World, seal: Ballot -> string)
    returns (r: Result<Ballot, ExecErr>, rows: seq<SessionRow>, log: seq<string>)
    ensures r == Answer(h, job, w) && rows == Trace(h, job, w, seal)
    ensures Starts(job, w) ==> log == Names(Replies(D.Lanes(job.seats), w.legs, CourseOf(h, job, w).0))
    ensures !Starts(job, w) ==> log == []
  {
    hide Plan, Course, Concluded, Usages, Replies, Pin;
    var plan := PlanBatches(w.reg, D.Lanes(job.seats));
    if plan.Err? {
      return Err(Dispatch(plan.error)), [], [];
    }
    var known := CheckIdentity(job.seats, w.lanes);
    if !known {
      return Err(Identity), [], [];
    }
    PlanSpells(w.reg, D.Lanes(job.seats));
    var replies, stop, n;
    rows, replies, log, stop, n := RunWaves(h, job.open, job.conv, job.seats, job.pin, w.cards, job.strict,
      w.legs, plan.value);
    assert (n, stop) == CourseOf(h, job, w);
    assert rows + [] == rows;
    match stop {
      case PinMovedAt(wave) => r := Err(PinMoved(job.pin, Pin(h, w.cards(wave))));
      case LegFailed(leg) =>
        r := Err(if w.legs(leg).Refused? then LaneRefused(w.legs(leg).lane, w.legs(leg).reason) else LanePanicked);
      case Finished =>
        var ballot := Conclude(job, replies);
        if ballot.Err? {
          r := Err(VoteRefused(ballot.error));
        } else {
          r := Ok(ballot.value);
          rows := rows + [CloseRow(job.conv, ballot.value, seal)];
        }
    }
  }

  // ---------- what the rows of a session say ----------

  function UsageLanes(rows: seq<SessionRow>): seq<string>
    decreases |rows|
  {
    if rows == [] then []
    else UsageLanes(rows[..|rows| - 1]) + if rows[|rows| - 1].Usage? then [rows[|rows| - 1].lane] else []
  }

  lemma UsageLanesSnoc(rows: seq<SessionRow>, row: SessionRow)
    ensures UsageLanes(rows + [row]) == UsageLanes(rows) + if row.Usage? then [row.lane] else []
  {
    assert (rows + [row])[..|rows|] == rows;
  }

  lemma {:induction false} UsageLanesAppend(a: seq<SessionRow>, b: seq<SessionRow>)
    ensures UsageLanes(a + b) == UsageLanes(a) + UsageLanes(b)
    decreases |b|
  {
    if b == [] {
      assert a + b == a;
    } else {
      var front := b[..|b| - 1];
      assert a + b == (a + front) + [b[|b| - 1]] && b == front + [b[|b| - 1]];
      UsageLanesAppend(a, front);
      UsageLanesSnoc(a + front, b[|b| - 1]);
      UsageLanesSnoc(front, b[|b| - 1]);
    }
  }

  /** One list is the other with some entries left out. */
  ghost predicate Subsequence(a: seq<string>, b: seq<string>)
    decreases |b|
  {
    if a == [] then true
    else if b == [] then false
    else if Subsequence(a, b[..|b| - 1]) then true
    else a[|a| - 1] == b[|b| - 1] && Subsequence(a[..|a| - 1], b[..|b| - 1])
  }

  /** One more leg, seen in the rows, in the replies and among the lanes. */
  lemma LegTaken(conv: string, seats: seq<Seat>, legs: Answers, n: nat)
    requires n < |seats|
    ensures var rows, replies := Usages(conv, seats, legs, n), Replies(D.Lanes(seats), legs, n);
      var row := if legs(n).Answered? then [seats[n].lane] else [];
      && UsageLanes(Usages(conv, seats, legs, n + 1)) == UsageLanes(rows) + row
      && Names(Replies(D.Lanes(seats), legs, n + 1)) == Names(replies) + row
  {
    hide UsageLanes;
    var lanes := D.Lanes(seats);
    var rows, replies, leg := Usages(conv, seats, legs, n), Replies(lanes, legs, n), legs(n);
    if leg.Answered? {
      assert seats[n] in seats && lanes[n] == seats[n].lane;
      UsageLanesSnoc(rows, UsageRow(conv, SeatFor(seats, lanes[n]), leg));
      assert Names(replies + [Reply(lanes[n], leg.model, leg.position)]) == Names(replies) + [lanes[n]];
    } else {
      assert rows + [] == rows && replies + [] == replies;
    }
  }

  lemma {:induction false} UsagesAreReplies(conv: string, seats: seq<Seat>, legs: Answers, n: nat)
    requires n <= |seats|
    ensures UsageLanes(Usages(conv, seats, legs, n)) == Names(Replies(D.Lanes(seats), legs, n))
    ensures (forall i :: 0 <= i < n ==> legs(i).Answered?) ==>
      UsageLanes(Usages(conv, seats, legs, n)) == D.Lanes(seats)[..n]
    ensures Subsequence(UsageLanes(Usages(conv, seats, legs, n)), D.Lanes(seats)[..n])
    decreases n
  {
    hide Usages, Replies, UsageLanes, Names, Subsequence;
    var lanes := D.Lanes(seats);
    if n == 0 {
      NoLegs(conv, seats, legs);
    } else {
      UsagesAreReplies(conv, seats, legs, n - 1);
      LegTaken(conv, seats, legs, n - 1);
      assert lanes[..n] == lanes[..n - 1] + [seats[n - 1].lane];
      var a := UsageLanes(Usages(conv, seats, legs, n - 1));
      SubsequenceStep(a, lanes[..n - 1], seats[n - 1].lane);
      assert a + [] == a;
    }
  }

  lemma NoLegs(conv: string, seats: seq<Seat>, legs: Answers)
    ensures Usages(conv, seats, legs, 0) == [] && Names(Replies(D.Lanes(seats), legs, 0)) == []
    ensures UsageLanes([]) == [] && Subsequence([], D.Lanes(seats)[..0])
  {
  }

  lemma SubsequenceStep(a: seq<string>, b: seq<string>, x: string)
    requires Subsequence(a, b)
    ensures Subsequence(a + [x], b + [x]) && Subsequence(a, b + [x])
  {
    assert (a + [x])[..|a|] == a && (b + [x])[..|b|] == b;
  }

  /**
   The rows of every session that has a seat: nothing at all when it is refused before its first leg;
   otherwise the open row, a usage row for each answered leg of an initial run of the seats in their
   order, and the close row exactly when it succeeds, that run then being all of them.
   */
  lemma {:induction false} TraceLaw(h: Digest, job: Job, w: World, seal: Ballot -> string)
    requires job.seats != [] && job.open.Open?
    ensures var rows, answer := Trace(h, job, w, seal), Answer(h, job, w);
      && (rows == [] <==> !Starts(job, w) || CourseOf(h, job, w).1 == PinMovedAt(0))
      && (rows != [] ==>
          var n := CourseOf(h, job, w).0;
          var close := if answer.Ok? then [CloseRow(job.conv, answer.value, seal)] else [];
          && rows == [job.open] + Usages(job.conv, job.seats, w.legs, n) + close
          && UsageLanes(rows) == Names(Replies(D.Lanes(job.seats), w.legs, n))
          && Subsequence(UsageLanes(rows), D.Lanes(job.seats)[..n])
          && (job.strict ==> UsageLanes(rows) == D.Lanes(job.seats)[..n])
          && (answer.Ok? ==>
                && n == |job.seats|
                && Concluded(job, Replies(D.Lanes(job.seats), w.legs, n)) == Ok(answer.value)))
  {
    hide Concluded, Course, Usages, Replies, UsageLanes, Names, Subsequence;
    if Starts(job, w) {
      var (n, stop) := CourseOf(h, job, w);
      var lanes := D.Lanes(job.seats);
      PlanSpells(w.reg, lanes);
      SomeWave(Plan(w.reg, lanes).value, lanes);
      MovedFirst(h, job, w);
      UsagesAreReplies(job.conv, job.seats, w.legs, n);
      var usages := Usages(job.conv, job.seats, w.legs, n);
      var close := if Answer(h, job, w).Ok? then [CloseRow(job.conv, Answer(h, job, w).value, seal)] else [];
      BetweenOpenAndClose(job.open, usages, close);
    }
  }

  lemma BetweenOpenAndClose(open: SessionRow, usages: seq<SessionRow>, close: seq<SessionRow>)
    requires !open.Usage? && |close| <= 1 && (close != [] ==> !close[0].Usage?)
    ensures UsageLanes([open] + usages + close) == UsageLanes(usages)
  {
    hide UsageLanes;
    UsageLanesAppend([open] + usages, close);
    UsageLanesAppend([open], usages);
    NoUsage(open);
    NoRows();
    if close != [] {
      NoUsage(close[0]);
      assert close == [close[0]];
    }
    assert [] + UsageLanes(usages) + [] == UsageLanes(usages);
  }

  lemma NoUsage(row: SessionRow)
    requires !row.Usage?
    ensures UsageLanes([row]) == []
  {
    assert [row][..0] == [];
  }

  lemma NoRows()
    ensures UsageLanes([]) == []
  {
  }

  lemma SomeWave(waves: seq<seq<string>>, lanes: seq<string>)
    requires Flatten(waves) == lanes && lanes != []
    ensures waves != []
  {
  }

  lemma MovedFirst(h: Digest, job: Job, w: World)
    requires Starts(job, w)
    ensures CourseOf(h, job, w).1 == PinMovedAt(0) ==>
      CourseOf(h, job, w).0 == 0 && Usages(job.conv, job.seats, w.legs, 0) == []
    ensures CourseOf(h, job, w).1 == PinMovedAt(0) ==> Answer(h, job, w).Err?
  {
    hide Pin;
    var waves := Plan(w.reg, D.Lanes(job.seats)).value;
    CoursePinMoved(h, job.pin, w.cards, job.strict, w.legs, waves, 0, 0);
    assert Flatten(waves[..0]) == [];
  }

  lemma {:induction false} FlattenPrefix(waves: seq<seq<string>>, k: nat)
    requires k <= |waves|
    ensures Flatten(waves[..k]) <= Flatten(waves)
    decreases |waves|
  {
    if k > 0 {
      FlattenPrefix(waves[1..], k - 1);
      assert waves[..k][1..] == waves[1..][..k - 1];
    }
  }

  /**
   A pin that moves before a wave leaves usage rows for exactly the lanes of the waves before it that
   answered, which in a council are all of them.
   */
  lemma {:induction false} PinMovedLeavesEarlierWaves(h: Digest, job: Job, w: World, seal: Ballot -> string, k: nat)
    requires job.seats != [] && job.open.Open? && Starts(job, w) && CourseOf(h, job, w).1 == PinMovedAt(k)
    ensures var lanes := D.Lanes(job.seats);
      var waves := Plan(w.reg, lanes).value;
      && k < |waves| && |Flatten(waves[..k])| <= |lanes|
      && UsageLanes(Trace(h, job, w, seal)) == Names(Replies(lanes, w.legs, |Flatten(waves[..k])|))
      && (job.strict ==> UsageLanes(Trace(h, job, w, seal)) == Flatten(waves[..k]))
      && Answer(h, job, w) == Err(PinMoved(job.pin, Pin(h, w.cards(k)))) && Pin(h, w.cards(k)) != job.pin
  {
    hide *;
    MovedCourse(h, job, w, k);
    TraceLaw(h, job, w, seal);
    if k == 0 {
      NoRows();
      NoLegs(job.conv, job.seats, w.legs);
      assert D.Lanes(job.seats)[..0] == [];
    }
  }

  /** A pin that moved before wave `k`: the legs taken are those of the waves before it. */
  lemma MovedCourse(h: Digest, job: Job, w: World, k: nat)
    requires Starts(job, w) && CourseOf(h, job, w).1 == PinMovedAt(k)
    ensures var lanes := D.Lanes(job.seats);
      && Plan(w.reg, lanes).Ok? && |lanes| == |job.seats|
      && var waves := Plan(w.reg, lanes).value;
      && k < |waves| && CourseOf(h, job, w).0 == |Flatten(waves[..k])| <= |lanes|
      && Flatten(waves[..k]) == lanes[..CourseOf(h, job, w).0]
      && (k == 0 ==> CourseOf(h, job, w).0 == 0)
    ensures Answer(h, job, w) == Err(PinMoved(job.pin, Pin(h, w.cards(k)))) && Pin(h, w.cards(k)) != job.pin
  {
    hide Pin, Course, Concluded, Plan, Identified;
    var lanes := D.Lanes(job.seats);
    var waves := Plan(w.reg, lanes).value;
    PlanSpells(w.reg, lanes);
    CoursePinMoved(h, job.pin, w.cards, job.strict, w.legs, waves, 0, 0);
    FlattenPrefix(waves, k);
    if k == 0 {
      assert waves[..0] == [] && Flatten([]) == [];
    }
  }

  // ---------- the two bodies ----------

  function CouncilJob(s: S.CouncilSession): Job {
    var c := s.convening;
    Job(Open(c.id, Council, c.pin, s.stakes, if s.rerunOf.Some? then s.rerunOf.value else "",
        s.gate.actor, s.gate.wardenCard),
      c.id, SeatsOf(c.panel), c.pin, true)
  }

  function QuorumJob(s: S.QuorumSession): Job {
    Job(Open(s.id, Quorum, s.pin, s.stakes, if s.rerunOf.Some? then s.rerunOf.value else "",
        s.gate.actor, s.gate.wardenCard),
      s.id, s.pool, s.pin, false)
  }

  /** `run_council`: the bundle and its disagreement map, with the rows that reached the session stream. */
  method RunCouncil(h: Digest, s: S.CouncilSession, w: World, seal: Ballot -> string)
    returns (r: Result<(Ballot, seq<Cluster>), ExecErr>, rows: seq<SessionRow>, log: seq<string>)
    ensures rows == Trace(h, CouncilJob(s), w, seal)
    ensures r == match Answer(h, CouncilJob(s), w)
      case Err(e) => Err(e)
      case Ok(ballot) => Ok((ballot, Integrate(ballot.replies)))
  {
    hide Answer, Trace, Integrate;
    var ballot;
    ballot, rows, log := RunSession(h, CouncilJob(s), w, seal);
    if ballot.Err? {
      return Err(ballot.error), rows, log;
    }
    var clusters := IntegrateVotes(ballot.value.replies);
    r := Ok((ballot.value, clusters));
  }

  /** `run_quorum`: the ballot, the ruling and the ledger row. */
  method RunQuorum(h: Digest, s: S.QuorumSession, w: World, seal: Ballot -> string)
    returns (r: Result<(Ballot, Ruling, QuorumRows.QuorumRow), ExecErr>, rows: seq<SessionRow>, log: seq<string>)
    ensures rows == Trace(h, QuorumJob(s), w, seal)
    ensures Answer(h, QuorumJob(s), w).Err? ==> r == Err(Answer(h, QuorumJob(s), w).error)
    ensures Answer(h, QuorumJob(s), w).Ok? ==>
      var ballot := Answer(h, QuorumJob(s), w).value;
      && Decide(|s.pool|, ballot).Ok?
      && r == Ok((ballot, Decide(|s.pool|, ballot).value,
           QuorumRows.RowOf(s, ballot, Decide(|s.pool|, ballot).value, seal(ballot))))
  {
    var ballot;
    ballot, rows, log := RunSession(h, QuorumJob(s), w, seal);
    if ballot.Err? {
      return Err(ballot.error), rows, log;
    }
    AnswerDecides(h, s, w);
    hide Answer, Trace, Decide, QuorumRows.RowOf;
    var ruling := Decide(|s.pool|, ballot.value).value;
    r := Ok((ballot.value, ruling, QuorumRows.RowOf(s, ballot.value, ruling, seal(ballot.value))));
  }

  lemma AnswerDecides(h: Digest, s: S.QuorumSession, w: World)
    ensures Answer(h, QuorumJob(s), w).Ok? ==> Decide(|s.pool|, Answer(h, QuorumJob(s), w).value).Ok?
  {
    hide Plan, CourseOf, Replies, Collect, Decide, Identified, Pin;
  }

  /** A quorum that succeeds leaves usage rows for exactly the seats its ballot counts as answered. */
  lemma {:induction false} QuorumUsageIsBallot(h: Digest, s: S.QuorumSession, w: World, seal: Ballot -> string)
    requires s.pool != [] && Answer(h, QuorumJob(s), w).Ok?
    ensures var rows, ballot := Trace(h, QuorumJob(s), w, seal), Answer(h, QuorumJob(s), w).value;
      && (forall x :: x in s.pool ==> (x.lane in UsageLanes(rows) <==> x.lane in Names(ballot.replies)))
      && (forall x :: x in s.pool ==> (x.lane in UsageLanes(rows) <==> x.lane !in ballot.missing))
  {
    hide Usages, Replies, UsageLanes, Subsequence, Plan, Course, Identified, Gather, Absent, Sound, Decide;
    var job := QuorumJob(s);
    TraceLaw(h, job, w, seal);
    var replies := Replies(D.Lanes(job.seats), w.legs, CourseOf(h, job, w).0);
    var ballot := Answer(h, job, w).value;
    assert ballot == Collect(s.pool, replies).value;
    assert ballot.replies == Gather(s.pool, replies) && ballot.missing == Absent(s.pool, replies);
    assert UsageLanes(Trace(h, job, w, seal)) == Names(replies);
    hide Collect, Trace, Answer, Names;
    forall x | x in s.pool
      ensures (x.lane in Names(replies) <==> x.lane in Names(ballot.replies))
        && (x.lane in Names(replies) <==> x.lane !in ballot.missing)
    {
      NamesAreLanes(replies);
      GatherNames(s.pool, replies, x);
      AbsentOf(s.pool, replies, x);
    }
  }

  lemma NamesAreLanes(replies: seq<Reply>)
    ensures forall l :: l in Names(replies) <==> l in ReplyLanes(replies)
  {
    forall i | 0 <= i < |replies| ensures Names(replies)[i] == replies[i].lane && replies[i] in replies {
    }
  }

  lemma {:induction false} GatherNames(pool: seq<Seat>, replies: seq<Reply>, x: Seat)
    requires x in pool
    ensures x.lane in Names(Gather(pool, replies)) <==> x.lane in ReplyLanes(replies)
  {
    GatherLanes(pool, replies);
    NamesAreLanes(Gather(pool, replies));
  }

  lemma {:induction false} GatherLanes(pool: seq<Seat>, replies: seq<Reply>)
    ensures ReplyLanes(Gather(pool, replies)) == PoolLanes(pool) * ReplyLanes(replies)
    decreases |pool|
  {
    if pool != [] {
      var front, last := pool[..|pool| - 1], pool[|pool| - 1];
      GatherLanes(front, replies);
      assert pool == front + [last];
      assert PoolLanes(pool) == PoolLanes(front) + {last.lane};
      var r, votes := ReplyOf(replies, last.lane), Gather(front, replies);
      LaneReplied(replies, last.lane);
      assert votes + [] == votes;
      if r.Some? {
        assert ReplyLanes(votes + [r.value]) == ReplyLanes(votes) + {r.value.lane};
      }
    }
  }

  lemma AbsentOf(pool: seq<Seat>, replies: seq<Reply>, x: Seat)
    requires x in pool
    ensures x.lane in Absent(pool, replies) <==> x.lane !in ReplyLanes(replies)
  {
    assert x.lane in PoolLanes(pool);
  }
}
