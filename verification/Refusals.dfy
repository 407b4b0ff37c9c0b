/**
 What a wave leaves behind when one of its legs stops the run: crates/caddis-deliberate/src/executor.rs.
 The comment over the result loop wants a row for every answered leg of the wave before the refusal;
 the loop returns at the first leg that stops it.
 */
module Refusals {
  import opened Wrappers
  import opened Cards
  import opened Decimals
  import opened Caps
  import D = Disjoint
  import opened Seats
  import opened Protocols
  import opened Votes
  import opened Executor

  /** The number of the leg behind the wave that holds leg `n`. */
  function WaveEnd(waves: seq<seq<string>>, n: nat): (end: nat)
    requires n < |Flatten(waves)|
    ensures n < end <= |Flatten(waves)|
    decreases |waves|
  {
    var w := |waves[0]|;
    if n < w then w else w + WaveEnd(waves[1..], n - w)
  }

  /** The number of the first leg of that wave. */
  function WaveStart(waves: seq<seq<string>>, n: nat): (start: nat)
    requires n < |Flatten(waves)|
    ensures start <= n
    decreases |waves|
  {
    var w := |waves[0]|;
    if n < w then 0 else w + WaveStart(waves[1..], n - w)
  }

  /** They bound one wave of the plan. */
  lemma {:induction false} WaveBounds(waves: seq<seq<string>>, n: nat)
    requires n < |Flatten(waves)|
    ensures exists j: nat ::
      && j < |waves| && WaveStart(waves, n) == |Flatten(waves[..j])|
      && WaveEnd(waves, n) == WaveStart(waves, n) + |waves[j]|
    decreases |waves|
  {
    var w := |waves[0]|;
    if n < w {
      assert waves[..0] == [];
    } else {
      WaveBounds(waves[1..], n - w);
      var j: nat :| j < |waves[1..]| && WaveStart(waves[1..], n - w) == |Flatten(waves[1..][..j])|
        && WaveEnd(waves[1..], n - w) == WaveStart(waves[1..], n - w) + |waves[1..][j]|;
      assert waves[..j + 1][1..] == waves[1..][..j];
      FirstWave(waves[..j + 1]);
      assert waves[j + 1] == waves[1..][j];
    }
  }

  /** The answers of more legs extend those of fewer, and are the same exactly when none of the rest answered. */
  lemma {:induction false} RepliesGrow(lanes: seq<string>, legs: Answers, n: nat, m: nat)
    requires n <= m <= |lanes|
    ensures var few, all := Replies(lanes, legs, n), Replies(lanes, legs, m);
      && |few| <= |all|
      && (|few| == |all| ==> few == all)
      && (|few| == |all| <==> forall i :: n <= i < m ==> !legs(i).Answered?)
    decreases m
  {
    if n < m {
      RepliesGrow(lanes, legs, n, m - 1);
      var before := Replies(lanes, legs, m - 1);
      assert before + [] == before;
      assert (forall i :: n <= i < m ==> !legs(i).Answered?) <==>
        !legs(m - 1).Answered? && forall i :: n <= i < m - 1 ==> !legs(i).Answered?;
    }
  }

  /** Where the leg that stops the run lies. */
  lemma Stopped(h: Digest, job: Job, w: World)
    requires Starts(job, w) && CourseOf(h, job, w).1.LegFailed?
    ensures var (n, stop) := CourseOf(h, job, w);
      && stop == LegFailed(n) && n < |job.seats| && Halts(job.strict, w.legs(n))
      && Plan(w.reg, D.Lanes(job.seats)).Ok?
      && Flatten(Plan(w.reg, D.Lanes(job.seats)).value) == D.Lanes(job.seats)
  {
    hide Plan, Course, Halts, Pin, Identified;
    var waves := Plan(w.reg, D.Lanes(job.seats)).value;
    PlanSpells(w.reg, D.Lanes(job.seats));
    CourseBound(h, job.pin, w.cards, job.strict, w.legs, waves, 0, 0);
  }

  /** Its rows are those of the answered legs before it. */
  lemma StoppedRows(h: Digest, job: Job, w: World, seal: Ballot -> string)
    requires job.open.Open? && Starts(job, w) && CourseOf(h, job, w).1.LegFailed?
    ensures UsageLanes(Trace(h, job, w, seal)) == Names(Replies(D.Lanes(job.seats), w.legs, CourseOf(h, job, w).0))
  {
    Stopped(h, job, w);
    hide CourseOf, Usages, Replies, UsageLanes, Names, Concluded, Plan, Identified, Pin;
    TraceLaw(h, job, w, seal);
  }

  /**
   When leg `n` stops a council or a quorum, the rows of its wave are those the comment promises, one for
   every answered leg up to the end of the wave, if and only if no leg behind `n` in the wave answered.
   */
  lemma {:induction false} WaveRowsLaw(h: Digest, job: Job, w: World, seal: Ballot -> string)
    requires job.open.Open? && Starts(job, w) && CourseOf(h, job, w).1.LegFailed?
    ensures var n, lanes := CourseOf(h, job, w).0, D.Lanes(job.seats);
      var waves := Plan(w.reg, lanes).value;
      && n < |Flatten(waves)| <= |lanes|
      && var end := WaveEnd(waves, n);
      UsageLanes(Trace(h, job, w, seal)) == Names(Replies(lanes, w.legs, end)) <==>
        forall i :: n < i < end ==> !w.legs(i).Answered?
  {
    hide *;
    Stopped(h, job, w);
    StoppedRows(h, job, w, seal);
    LanesLength(job.seats);
    var n, lanes := CourseOf(h, job, w).0, D.Lanes(job.seats);
    RowsOfWave(lanes, job.strict, w.legs, n, WaveEnd(Plan(w.reg, lanes).value, n));
  }

  lemma RowsOfWave(lanes: seq<string>, strict: bool, legs: Answers, n: nat, end: nat)
    requires n < end <= |lanes| && Halts(strict, legs(n))
    ensures Names(Replies(lanes, legs, n)) == Names(Replies(lanes, legs, end)) <==>
      forall i :: n < i < end ==> !legs(i).Answered?
  {
    RepliesGrow(lanes, legs, n, end);
    assert !legs(n).Answered?;
    hide Replies;
    assert |Names(Replies(lanes, legs, n))| == |Replies(lanes, legs, n)|;
    assert |Names(Replies(lanes, legs, end))| == |Replies(lanes, legs, end)|;
  }

  lemma LanesLength(seats: seq<Seats.Seat>)
    ensures |D.Lanes(seats)| == |seats|
    ensures DistinctLanes(seats) ==> forall i, j :: 0 <= i < j < |seats| ==> D.Lanes(seats)[i] != D.Lanes(seats)[j]
  {
  }

  lemma {:induction false} NamedLanes(lanes: seq<string>, legs: Answers, n: nat, lane: string)
    requires n <= |lanes|
    ensures lane in Names(Replies(lanes, legs, n)) <==> exists i :: 0 <= i < n && lanes[i] == lane && legs(i).Answered?
    decreases n
  {
    if n > 0 {
      NamedLanes(lanes, legs, n - 1, lane);
      var before := Replies(lanes, legs, n - 1);
      assert before + [] == before;
      if legs(n - 1).Answered? {
        var r := Reply(lanes[n - 1], legs(n - 1).model, legs(n - 1).position);
        assert Names(before + [r]) == Names(before) + [lanes[n - 1]];
      }
      assert (exists i :: 0 <= i < n && lanes[i] == lane && legs(i).Answered?) <==>
        (lanes[n - 1] == lane && legs(n - 1).Answered?)
        || exists i :: 0 <= i < n - 1 && lanes[i] == lane && legs(i).Answered?;
    }
  }

  /**
   So too leg by leg: with one seat a lane, as in every panel and pool, each answered leg of the wave has
   its row if and only if no leg behind the one that stops it answered.
   */
  lemma {:induction false} WaveLegsLaw(h: Digest, job: Job, w: World, seal: Ballot -> string)
    requires job.open.Open? && Starts(job, w) && CourseOf(h, job, w).1.LegFailed? && DistinctLanes(job.seats)
    ensures var n, lanes := CourseOf(h, job, w).0, D.Lanes(job.seats);
      var waves := Plan(w.reg, lanes).value;
      && n < |Flatten(waves)| <= |lanes|
      && var start, end := WaveStart(waves, n), WaveEnd(waves, n);
      (forall i :: start <= i < end && w.legs(i).Answered? ==> lanes[i] in UsageLanes(Trace(h, job, w, seal))) <==>
        forall i :: n < i < end ==> !w.legs(i).Answered?
  {
    hide *;
    Stopped(h, job, w);
    StoppedRows(h, job, w, seal);
    LanesLength(job.seats);
    var n, lanes := CourseOf(h, job, w).0, D.Lanes(job.seats);
    var waves := Plan(w.reg, lanes).value;
    RowsOfLegs(lanes, job.strict, w.legs, n, WaveStart(waves, n), WaveEnd(waves, n));
  }

  lemma RowsOfLegs(lanes: seq<string>, strict: bool, legs: Answers, n: nat, start: nat, end: nat)
    requires start <= n < end <= |lanes| && Halts(strict, legs(n))
    requires forall i, j :: 0 <= i < j < |lanes| ==> lanes[i] != lanes[j]
    ensures (forall i :: start <= i < end && legs(i).Answered? ==> lanes[i] in Names(Replies(lanes, legs, n))) <==>
      forall i :: n < i < end ==> !legs(i).Answered?
  {
    assert !legs(n).Answered?;
    hide Replies, Names, Halts;
    forall i | 0 <= i < end && legs(i).Answered?
      ensures lanes[i] in Names(Replies(lanes, legs, n)) <==> i < n
    {
      NamedLanes(lanes, legs, n, lanes[i]);
    }
  }

  // ---------- an answered leg without its row ----------

  /** One provider that takes three calls at once, and three seats on it. */
  function Trio(): Registry {
    var seat := SeatCard("a", "p", "f", "m", Http, Free, Live, 0, 3, Int(0), Int(0), 0, 0, "s");
    Registry(map["p" := ProviderCard("p", Http, "", "", "", 3, "s")],
      map["a" := seat, "b" := seat.(id := "b"), "c" := seat.(id := "c")])
  }

  function Trinity(lane: string): Seats.Seat {
    Seats.Seat(lane, Http, "f", "p", "m", Free, Live, 3, None)
  }

  function Panel(): seq<Seats.Seat> {
    [Trinity("a"), Trinity("b"), Trinity("c")]
  }

  /** The second of the three refuses; the others answer. */
  function SecondRefuses(): Answers {
    k => if k == 1 then Refused("b", "busy") else Answered("m", Ship, 7, 9)
  }

  lemma TrioIsOneWave()
    ensures D.Lanes(Panel()) == ["a", "b", "c"] && Plan(Trio(), ["a", "b", "c"]) == Ok([["a", "b", "c"]])
  {
    var wanted := ["a", "b", "c"];
    forall id | id in wanted ensures Known(Trio(), id) && Cap(Trio(), id) == 3 {
    }
    RoomForAll(Trio(), wanted);
  }

  /** A concrete council of one wave: its third leg answered, and only the first left a row. */
  lemma {:induction false} AnsweredWithoutRow(h: Digest, open: SessionRow, card: Protocol, seal: Ballot -> string)
    requires open.Open?
    ensures var job := Job(open, "conv", Panel(), Pin(h, card), true);
      var w := World(_ => card, Trio(), map["a" := Http, "b" := Http, "c" := Http], SecondRefuses());
      && w.legs(0).Answered? && w.legs(2).Answered?
      && Answer(h, job, w) == Err(LaneRefused("b", "busy"))
      && Trace(h, job, w, seal) == [open, Usage("conv", "a", Http, "p", "m", Free, 7, 9)]
  {
    hide Pin, Plan, Concluded;
    TrioIsOneWave();
    var job := Job(open, "conv", Panel(), Pin(h, card), true);
    var w := World(_ => card, Trio(), map["a" := Http, "b" := Http, "c" := Http], SecondRefuses());
    TrioCourse(h, job, w);
    assert Usages("conv", Panel(), w.legs, 0) == [];
    assert Usages("conv", Panel(), w.legs, 1) == [] + [UsageRow("conv", Trinity("a"), w.legs(0))];
  }

  lemma TrioCourse(h: Digest, job: Job, w: World)
    requires job.seats == Panel() && job.strict && w.reg == Trio() && w.legs == SecondRefuses()
    requires w.lanes == map["a" := Http, "b" := Http, "c" := Http] && Pin(h, w.cards(0)) == job.pin
    ensures Starts(job, w) && CourseOf(h, job, w) == (1, LegFailed(1))
  {
    hide Pin, Plan, Course, Trio;
    TrioIsOneWave();
    assert Halts(job.strict, w.legs(1)) && !Halts(job.strict, w.legs(0));
    StopsIn(h, job.pin, w.cards, job.strict, w.legs, Plan(w.reg, D.Lanes(job.seats)).value, 0, 0, 1);
  }

  lemma StopsIn(h: Digest, pin: string, cards: Snapshot, strict: bool, legs: Answers, waves: seq<seq<string>>,
      wi: nat, k: nat, n: nat)
    requires waves != [] && k <= n < k + |waves[0]| && Pin(h, cards(wi)) == pin
    requires Halts(strict, legs(n)) && forall i :: k <= i < n ==> !Halts(strict, legs(i))
    ensures Course(h, pin, cards, strict, legs, waves, wi, k) == (n, LegFailed(n))
  {
    hide Pin, Halts, FirstHalt;
    assert FirstHalt(strict, legs, k, k + |waves[0]|) == n;
  }
}
