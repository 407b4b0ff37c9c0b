/**
 What selection promises, said of cost classes, lanes, states and families alone: panels and pools of
 crates/caddis-deliberate/src/lib.rs and disjoint.rs never take a dearer seat while a cheaper one that
 could have been taken is left out.
 */
module SeatLaws {
  import opened Wrappers
  import opened Text
  import opened BTree
  import opened Lexical
  import opened Seats
  import opened Disjoint

  // ---------- preference ----------

  /** `x` is to be taken before `y`: cheaper, or in the same cost class with a smaller lane. */
  ghost predicate Preferred(x: Seat, y: Seat) {
    || (x.costClass.Free? && (y.costClass.Mid? || y.costClass.Premium?))
    || (x.costClass.Mid? && y.costClass.Premium?)
    || (x.costClass == y.costClass && Precedes(x.lane, y.lane))
  }

  lemma BeforeMeans(x: Seat, y: Seat)
    ensures Before(x, y) <==> !Preferred(y, x)
  {
    NotItself(x.lane);
    OrderIsLexical(x.lane, y.lane);
    OrderIsLexical(y.lane, x.lane);
    StrLeTotal(x.lane, y.lane);
    hide Precedes, StrLe;
  }

  // ---------- the best of the candidates ----------

  /** More copies of `x` among the candidates than among the taken. */
  ghost predicate LeftOut(x: Seat, from: seq<Seat>, taken: seq<Seat>) {
    multiset(taken)[x] < multiset(from)[x]
  }

  /** Candidates that qualify, in order of preference, none of them taken over one that is left out. */
  ghost predicate Best(taken: seq<Seat>, from: seq<Seat>, qualifies: Seat -> bool) {
    && multiset(taken) <= multiset(from)
    && (forall i :: 0 <= i < |taken| ==> qualifies(taken[i]))
    && (forall i, j :: 0 <= i < j < |taken| ==> !Preferred(taken[j], taken[i]))
    && (forall i, x :: 0 <= i < |taken| && qualifies(x) && LeftOut(x, from, taken) ==> !Preferred(x, taken[i]))
  }

  /** The places of the candidates that qualify. */
  ghost function Places(s: seq<Seat>, p: Seat -> bool): set<nat> {
    set i: nat | i < |s| && p(s[i])
  }

  lemma PlacesSnoc(s: seq<Seat>, p: Seat -> bool)
    requires s != []
    ensures var n := |s| - 1; |Places(s, p)| == |Places(s[..n], p)| + if p(s[n]) then 1 else 0
  {
    var n := |s| - 1;
    var front := Places(s[..n], p);
    assert Places(s, p) == if p(s[n]) then front + {n} else front;
  }

  lemma {:induction false} KeepCount(s: seq<Seat>, p: Seat -> bool, q: Seat -> bool)
    requires forall x :: p(x) == q(x)
    ensures |Keep(s, p)| == |Places(s, q)|
    decreases |s|
  {
    if s == [] {
      assert Places(s, q) == {};
    } else {
      hide Places;
      PlacesSnoc(s, q);
      KeepCount(s[..|s| - 1], p, q);
    }
  }

  lemma BestIs(taken: seq<Seat>, rest: seq<Seat>, s: seq<Seat>, p: Seat -> bool, q: Seat -> bool)
    requires forall x :: p(x) == q(x)
    requires LeastOf(taken, rest, multiset(Keep(s, p)))
    ensures Best(taken, s, q)
  {
    hide Before, Preferred, Keep;
    forall x: Seat ensures multiset(taken)[x] <= multiset(s)[x] && (x in multiset(taken) ==> q(x)) {
      KeepCounts(s, p, x);
    }
    forall i | 0 <= i < |taken| ensures q(taken[i]) {
      assert taken[i] in multiset(taken);
    }
    forall i, j | 0 <= i < j < |taken| ensures !Preferred(taken[j], taken[i]) {
      BeforeMeans(taken[i], taken[j]);
    }
    forall i, x | 0 <= i < |taken| && q(x) && LeftOut(x, s, taken) ensures !Preferred(x, taken[i]) {
      KeepCounts(s, p, x);
      assert x in multiset(rest);
      var j := MemberIndex(rest, x);
      BeforeMeans(taken[i], rest[j]);
    }
  }

  // ---------- the floors ----------

  const CLUSTER: set<string> := {
    "01ai", "alibaba", "baichuan", "baidu", "bigmodel", "deepseek", "doubao", "ernie",
    "hunyuan", "kimi", "minimax", "moonshot", "qwen", "tencent", "zai", "zhipu"}

  /** The family is the word, its ASCII capitals read as small letters. */
  ghost predicate Spells(word: string, family: string) {
    && |word| == |family|
    && forall i :: 0 <= i < |word| ==>
      word[i] as int == family[i] as int + if 'A' <= family[i] <= 'Z' then 32 else 0
  }

  ghost predicate Outsider(x: Seat) {
    forall word :: word in CLUSTER ==> !Spells(word, x.family)
  }

  lemma {:induction false} LowerSpells(word: string, family: string)
    ensures Lower(family) == word <==> Spells(word, family)
  {
    if word == [] || family == [] {
    } else {
      var w, f := word[1..], family[1..];
      LowerSpells(w, f);
      assert word == [word[0]] + w;
      assert Lower(family)[0] == word[0] <==> Spells([word[0]], [family[0]]);
      assert Lower(family)[1..] == Lower(f);
      if Spells(word, family) {
        forall i | 0 <= i < |w| ensures w[i] == word[i + 1] && f[i] == family[i + 1] {
        }
      }
      if Spells([word[0]], [family[0]]) && Spells(w, f) {
        forall i | 0 < i < |word| ensures word[i] == w[i - 1] && family[i] == f[i - 1] {
        }
      }
    }
  }

  lemma SameCluster(word: string)
    ensures word in CHINESE_FAMILIES <==> word in CLUSTER
  {
    var t := CHINESE_FAMILIES;
    assert |t| == 16;
    assert t[0] == "zai" && t[1] == "zhipu" && t[2] == "bigmodel" && t[3] == "deepseek";
    assert t[4] == "qwen" && t[5] == "alibaba" && t[6] == "moonshot" && t[7] == "kimi";
    assert t[8] == "minimax" && t[9] == "01ai" && t[10] == "baichuan" && t[11] == "doubao";
    assert t[12] == "ernie" && t[13] == "baidu" && t[14] == "hunyuan" && t[15] == "tencent";
  }

  lemma OutsiderMeans(x: Seat)
    ensures Outsider(x) <==> !IsChinese(x.family)
  {
    SameCluster(Lower(x.family));
    forall word ensures Lower(x.family) == word <==> Spells(word, x.family) {
      LowerSpells(word, x.family);
    }
    hide Lower, Spells, CHINESE_FAMILIES, CLUSTER;
  }

  ghost function Named(s: seq<Seat>): set<string> {
    set i | 0 <= i < |s| :: s[i].family
  }

  ghost predicate Meets(s: seq<Seat>, floors: Floors) {
    |Named(s)| >= floors.minFamilies && |Places(s, Outsider)| >= floors.minNonChinese
  }

  /** The refusal names the floor that is not met, families first, with what there is and what was wanted. */
  ghost predicate Refuses(e: PanelErr, s: seq<Seat>, floors: Floors) {
    match e
    case FamiliesFloor(have, want) => have == |Named(s)| < want == floors.minFamilies
    case NonChineseFloor(have, want) =>
      |Named(s)| >= floors.minFamilies && have == |Places(s, Outsider)| < want == floors.minNonChinese
    case _ => false
  }

  lemma {:induction false} OutsidersCounted(s: seq<Seat>)
    ensures NonChinese(s) == |Places(s, Outsider)|
  {
    if s == [] {
      assert Places(s, Outsider) == {};
    } else {
      OutsiderMeans(s[0]);
      OutsidersCounted(s[1..]);
      var tail := Places(s[1..], Outsider);
      PlacesTail(s, Outsider);
    }
  }

  lemma {:induction false} PlacesTail(s: seq<Seat>, p: Seat -> bool)
    requires s != []
    ensures |Places(s, p)| == (if p(s[0]) then 1 else 0) + |Places(s[1..], p)|
    decreases |s|
  {
    var n := |s| - 1;
    PlacesSnoc(s, p);
    if n == 0 {
      assert Places(s[..0], p) == {} && Places(s[1..], p) == {};
    } else {
      PlacesTail(s[..n], p);
      PlacesSnoc(s[1..], p);
      assert s[..n][1..] == s[1..][..n - 1];
    }
  }

  lemma {:induction false} FloorsLaw(s: seq<Seat>, floors: Floors)
    ensures CheckFloors(s, floors).None? <==> Meets(s, floors)
    ensures CheckFloors(s, floors).Some? ==>
      && Refuses(CheckFloors(s, floors).value, s, floors)
      && (CheckFloors(s, floors).value.FamiliesFloor? || CheckFloors(s, floors).value.NonChineseFloor?)
  {
    hide Places, Outsider, IsChinese;
    OutsidersCounted(s);
    assert Named(s) == Families(s);
  }

  // ---------- panels ----------

  ghost predicate Live(x: Seat) {
    x.state.Live?
  }

  ghost predicate NotLive(x: Seat) {
    !x.state.Live?
  }

  ghost function RoleAt(i: nat): Role {
    if i == 0 then Chair else if i == 1 then Synthesist else if i == 2 then Critic else LogicChecker
  }

  /** The panel seats exactly these, in the order of the roles. */
  ghost predicate Sits(panel: Panel, taken: seq<Seat>) {
    && |panel| == |taken|
    && forall i :: 0 <= i < |panel| ==> panel[i] == PanelSeat(RoleAt(i), taken[i])
  }

  /** The best `size` seats that qualify, which miss a floor in the way the refusal says. */
  ghost predicate Misses(e: PanelErr, taken: seq<Seat>, candidates: seq<Seat>, qualifies: Seat -> bool, size: nat,
      floors: Floors)
  {
    |taken| == size && Best(taken, candidates, qualifies) && Refuses(e, taken, floors)
  }

  ghost predicate PanelAnswer(r: Result<Panel, PanelErr>, candidates: seq<Seat>, floors: Floors) {
    var live, size := |Places(candidates, Live)|, floors.panelSize;
    match r
    case Ok(panel) =>
      && 1 <= size <= 4
      && exists taken :: |taken| == size && Best(taken, candidates, Live) && Meets(taken, floors) && Sits(panel, taken)
    case Err(PanelSizeOutOfRange(given, max)) => given == size && max == 4 && !(1 <= size <= 4)
    case Err(NotEnoughLiveSeats(have, need)) => 1 <= size <= 4 && have == live < need == size
    case Err(e) => 1 <= size <= 4 && exists taken :: Misses(e, taken, candidates, Live, size, floors)
  }

  /**
   What every construction answers: the best live candidates in the order of the roles when they meet
   the floors, and otherwise the first reason there is, with its figures.
   */
  lemma {:induction false} PanelAnswers(candidates: seq<Seat>, floors: Floors)
    ensures PanelAnswer(ConstructPanel(candidates, floors), candidates, floors)
  {
    hide Keep, Sort, Places, Best, Meets, Refuses, CheckFloors, LeastOf;
    var live, size := LiveOf(candidates), floors.panelSize;
    var p := (x: Seat) => x.Selectable();
    KeepCount(candidates, p, Live);
    if 1 <= size <= 4 && |live| >= size {
      SortSplits(live, size);
      var taken := Sort(live)[..size];
      BestIs(taken, Sort(live)[size..], candidates, p, Live);
      FloorsLaw(taken, floors);
      if CheckFloors(taken, floors).None? {
        assert Sits(Seated(taken), taken);
      } else {
        assert Misses(CheckFloors(taken, floors).value, taken, candidates, Live, size, floors);
      }
    }
  }

  // ---------- the strict pool ----------

  ghost predicate OnCouncil(council: Panel, lane: string) {
    exists i :: 0 <= i < |council| && council[i].seat.lane == lane
  }

  lemma CouncilMeans(council: Panel, lane: string)
    ensures lane in CouncilLanes(council) <==> OnCouncil(council, lane)
  {
    var seats := SeatsOf(council);
    if lane in CouncilLanes(council) {
      var x :| x in seats && x.lane == lane;
      var i :| 0 <= i < |seats| && seats[i] == x;
      assert council[i].seat.lane == lane;
    }
    if OnCouncil(council, lane) {
      var i :| 0 <= i < |council| && council[i].seat.lane == lane;
      assert seats[i] in seats;
    }
  }

  /** Live, and not on the council. */
  ghost function Apart(council: Panel): Seat -> bool {
    (x: Seat) => x.state.Live? && !OnCouncil(council, x.lane)
  }

  /** Live, but on the council. */
  ghost function Overlapping(council: Panel): Seat -> bool {
    (x: Seat) => x.state.Live? && OnCouncil(council, x.lane)
  }

  /** Live and on the council, on a lane the approval names. */
  ghost function Lent(council: Panel, lanes: seq<string>): Seat -> bool {
    (x: Seat) => x.state.Live? && OnCouncil(council, x.lane) && x.lane in lanes
  }

  ghost predicate StrictAnswer(r: Result<seq<Seat>, DisjointErr>, council: Panel, candidates: seq<Seat>, size: nat,
      floors: Floors)
  {
    var apart := |Places(candidates, Apart(council))|;
    match r
    case Ok(pool) => |pool| == size > 0 && Best(pool, candidates, Apart(council)) && Meets(pool, floors)
    case Err(EmptyPool) => size == 0
    case Err(Insufficient(have, want, skippedOverlap, skippedNonLive)) =>
      && have == apart < want == size && skippedOverlap == |Places(candidates, Overlapping(council))|
      && skippedNonLive == |Places(candidates, NotLive)|
    case Err(Floored(e)) =>
      0 < size <= apart && exists taken :: Misses(e, taken, candidates, Apart(council), size, floors)
    case Err(Overlap(_)) => false
  }

  lemma StandingMeans(council: Panel, approval: Approval, x: Seat)
    ensures var standing := StandingOf(CouncilLanes(council), Approved(approval), x);
      && (standing == Standing.Apart <==> Apart(council)(x))
      && (standing == NonLive <==> NotLive(x))
      && (standing == Reserve <==> Lent(council, approval.lanes)(x))
      && (standing == Unapproved <==> Overlapping(council)(x) && x.lane !in approval.lanes)
  {
    CouncilMeans(council, x.lane);
  }

  function Classifier(council: Panel, approved: set<string>, standing: Standing): Seat -> bool {
    (x: Seat) => StandingOf(CouncilLanes(council), approved, x) == standing
  }

  lemma PickIs(council: Panel, approved: set<string>, s: seq<Seat>, standing: Standing)
    ensures Pick(CouncilLanes(council), approved, s, standing) == Keep(s, Classifier(council, approved, standing))
  {
    hide Keep, StandingOf;
    var lanes := CouncilLanes(council);
    KeepSame(s, (x: Seat) => StandingOf(lanes, approved, x) == standing, Classifier(council, approved, standing));
  }

  lemma {:induction false} KeepSame(s: seq<Seat>, p: Seat -> bool, q: Seat -> bool)
    requires forall x :: p(x) == q(x)
    ensures Keep(s, p) == Keep(s, q)
    decreases |s|
  {
    if s != [] {
      KeepSame(s[..|s| - 1], p, q);
    }
  }

  /** Live, on the council, and not on a lane the approval names. */
  ghost function Unlent(council: Panel, lanes: seq<string>): Seat -> bool {
    (x: Seat) => x.state.Live? && OnCouncil(council, x.lane) && x.lane !in lanes
  }

  lemma StandingCounts(council: Panel, approval: Approval, s: seq<Seat>)
    ensures var lanes, approved := CouncilLanes(council), Approved(approval);
      && |Pick(lanes, approved, s, Standing.Apart)| == |Places(s, Apart(council))|
      && |Pick(lanes, approved, s, NonLive)| == |Places(s, NotLive)|
      && |Pick(lanes, approved, s, Reserve)| == |Places(s, Lent(council, approval.lanes))|
      && |Pick(lanes, approved, s, Unapproved)| == |Places(s, Unlent(council, approval.lanes))|
  {
    hide Places, Keep, Pick, CouncilLanes, Approved, OnCouncil, StandingOf;
    var approved := Approved(approval);
    forall x { StandingMeans(council, approval, x); }
    PickIs(council, approved, s, Standing.Apart);
    KeepCount(s, Classifier(council, approved, Standing.Apart), Apart(council));
    PickIs(council, approved, s, NonLive);
    KeepCount(s, Classifier(council, approved, NonLive), NotLive);
    PickIs(council, approved, s, Reserve);
    KeepCount(s, Classifier(council, approved, Reserve), Lent(council, approval.lanes));
    PickIs(council, approved, s, Unapproved);
    KeepCount(s, Classifier(council, approved, Unapproved), Unlent(council, approval.lanes));
  }

  lemma NoneApproved(council: Panel, s: seq<Seat>)
    ensures Approved(Approval("", [])) == {}
    ensures |Places(s, Unlent(council, []))| == |Places(s, Overlapping(council))|
  {
    hide OnCouncil;
    assert Places(s, Unlent(council, [])) == Places(s, Overlapping(council));
  }

  /** Every answer of the strict selection, with its figures. */
  lemma {:induction false} StrictAnswers(council: Panel, candidates: seq<Seat>, size: nat, floors: Floors)
    ensures StrictAnswer(StrictPool(council, candidates, size, floors), council, candidates, size, floors)
  {
    hide Pick, Sort, Places, Best, Meets, Refuses, CheckFloors, LeastOf, CouncilLanes, Shared, Apart, Overlapping;
    hide Unlent, Lent, Approved;
    var none := Approval("", []);
    NoneApproved(council, candidates);
    StandingCounts(council, none, candidates);
    StrictLaw(council, candidates, size, floors);
    var eligible := Pick(CouncilLanes(council), {}, candidates, Standing.Apart);
    if 0 < size <= |eligible| {
      SortSplits(eligible, size);
      var taken := Sort(eligible)[..size];
      BestApart(council, none, candidates, taken, Sort(eligible)[size..]);
      FloorsLaw(taken, floors);
      if CheckFloors(taken, floors).Some? {
        assert Misses(CheckFloors(taken, floors).value, taken, candidates, Apart(council), size, floors);
      }
    }
  }

  lemma BestApart(council: Panel, approval: Approval, s: seq<Seat>, taken: seq<Seat>, rest: seq<Seat>)
    requires LeastOf(taken, rest, multiset(Pick(CouncilLanes(council), Approved(approval), s, Standing.Apart)))
    ensures Best(taken, s, Apart(council))
  {
    hide Keep, Pick, Best, LeastOf, CouncilLanes, Approved, OnCouncil, StandingOf;
    forall x { StandingMeans(council, approval, x); }
    PickIs(council, Approved(approval), s, Standing.Apart);
    BestIs(taken, rest, s, Classifier(council, Approved(approval), Standing.Apart), Apart(council));
  }

  lemma BestLent(council: Panel, approval: Approval, s: seq<Seat>, taken: seq<Seat>, rest: seq<Seat>)
    requires LeastOf(taken, rest, multiset(Pick(CouncilLanes(council), Approved(approval), s, Reserve)))
    ensures Best(taken, s, Lent(council, approval.lanes))
  {
    hide Keep, Pick, Best, LeastOf, CouncilLanes, Approved, OnCouncil, StandingOf;
    forall x { StandingMeans(council, approval, x); }
    PickIs(council, Approved(approval), s, Reserve);
    BestIs(taken, rest, s, Classifier(council, Approved(approval), Reserve), Lent(council, approval.lanes));
  }

  // ---------- the pool with the reserve ----------

  ghost predicate LanesAre(lanes: seq<string>, seats: seq<Seat>) {
    |lanes| == |seats| && forall i :: 0 <= i < |lanes| ==> lanes[i] == seats[i].lane
  }

  /** Exactly the live lanes on the council that the approval does not name, each once, in order. */
  ghost predicate Waiting(lanes: seq<string>, council: Panel, candidates: seq<Seat>, approval: Approval) {
    && (forall i, j :: 0 <= i < j < |lanes| ==> Precedes(lanes[i], lanes[j]))
    && forall l :: l in lanes <==>
        exists i :: 0 <= i < |candidates| && Unlent(council, approval.lanes)(candidates[i]) && candidates[i].lane == l
  }

  /** Seats off the council first, and seats lent to it only when every one of those is taken. */
  ghost predicate Drawn(apart: seq<Seat>, lent: seq<Seat>, council: Panel, candidates: seq<Seat>, size: nat,
      approval: Approval)
  {
    && |apart| + |lent| == size > 0
    && Best(apart, candidates, Apart(council)) && Best(lent, candidates, Lent(council, approval.lanes))
    && (lent != [] ==> |apart| == |Places(candidates, Apart(council))|)
  }

  ghost predicate Audited(audit: Audit, apart: seq<Seat>, lent: seq<Seat>, council: Panel, candidates: seq<Seat>,
      approval: Approval)
  {
    && audit.approvalId == approval.id
    && LanesAre(audit.disjointLanes, apart) && LanesAre(audit.reserveLanes, lent)
    && audit.skippedNonLive == |Places(candidates, NotLive)|
    && Waiting(audit.unapprovedLiveOverlap, council, candidates, approval)
  }

  ghost predicate Supplied(pool: seq<Seat>, audit: Audit, apart: seq<Seat>, lent: seq<Seat>, council: Panel,
      candidates: seq<Seat>, size: nat, approval: Approval)
  {
    && pool == apart + lent && Drawn(apart, lent, council, candidates, size, approval)
    && Audited(audit, apart, lent, council, candidates, approval)
  }

  ghost predicate Starved(e: PanelErr, apart: seq<Seat>, lent: seq<Seat>, council: Panel, candidates: seq<Seat>,
      size: nat, floors: Floors, approval: Approval)
  {
    Drawn(apart, lent, council, candidates, size, approval) && Refuses(e, apart + lent, floors)
  }

  ghost predicate ReserveAnswer(r: Result<ReservePool, ReserveErr>, council: Panel, candidates: seq<Seat>, size: nat,
      floors: Floors, approval: Approval)
  {
    var apart := |Places(candidates, Apart(council))|;
    var lent := |Places(candidates, Lent(council, approval.lanes))|;
    match r
    case Ok(ReservePool(pool, audit)) =>
      && Trim(approval.id) != "" && Meets(pool, floors)
      && exists d, v :: Supplied(pool, audit, d, v, council, candidates, size, approval)
    case Err(NoPool) => size == 0
    case Err(BlankApproval) => size > 0 && Trim(approval.id) == ""
    case Err(Strict(Floored(e))) =>
      && 0 < size <= apart && Trim(approval.id) != ""
      && exists taken :: Misses(e, taken, candidates, Apart(council), size, floors)
    case Err(Strict(_)) => false
    case Err(ReserveExhausted(have, want, skippedNonLive, waiting)) =>
      && have == apart + lent < want == size && Trim(approval.id) != ""
      && skippedNonLive == |Places(candidates, NotLive)| && Waiting(waiting, council, candidates, approval)
    case Err(PoolFloors(e)) =>
      && apart < size <= apart + lent && Trim(approval.id) != ""
      && exists d, v :: Starved(e, d, v, council, candidates, size, floors, approval)
    case Err(PoolOverlap(_)) => false
  }

  lemma WaitingAre(council: Panel, candidates: seq<Seat>, approval: Approval)
    ensures Waiting(ShapeDay(council, candidates, approval).unapproved, council, candidates, approval)
  {
    hide Sort, Pick, CouncilLanes, Approved, Ordered, Precedes, StrLe, Unlent;
    var pick := Pick(CouncilLanes(council), Approved(approval), candidates, Unapproved);
    var lanes := Ordered(LaneSet(pick));
    forall i, j | 0 <= i < j < |lanes| ensures Precedes(lanes[i], lanes[j]) {
      OrderIsLexical(lanes[i], lanes[j]);
    }
    UnlentPicked(council, candidates, approval);
    forall l ensures l in lanes <==>
        exists i :: 0 <= i < |candidates| && Unlent(council, approval.lanes)(candidates[i]) && candidates[i].lane == l
    {
      if l in lanes {
        var x :| x in pick && x.lane == l;
        var i :| 0 <= i < |candidates| && candidates[i] == x;
        assert Unlent(council, approval.lanes)(candidates[i]) && candidates[i].lane == l;
      }
    }
  }

  lemma UnlentPicked(council: Panel, candidates: seq<Seat>, approval: Approval)
    ensures var pick := Pick(CouncilLanes(council), Approved(approval), candidates, Unapproved);
      forall x :: x in pick <==> x in candidates && Unlent(council, approval.lanes)(x)
  {
    hide CouncilLanes, Approved, OnCouncil, StandingOf;
    forall x { StandingMeans(council, approval, x); }
  }

  lemma DayIs(council: Panel, candidates: seq<Seat>, approval: Approval)
    ensures var day := ShapeDay(council, candidates, approval);
      && |day.disjoint| == |Places(candidates, Apart(council))|
      && |day.reserve| == |Places(candidates, Lent(council, approval.lanes))|
      && day.skippedNonLive == |Places(candidates, NotLive)|
      && Waiting(day.unapproved, council, candidates, approval)
  {
    WaitingAre(council, candidates, approval);
    StandingCounts(council, approval, candidates);
    hide Waiting, Places, Pick, Sort, CouncilLanes, Approved, Apart, Lent, Ordered;
    var lanes, approved := CouncilLanes(council), Approved(approval);
    TakenFrom(Pick(lanes, approved, candidates, Standing.Apart), 0);
    TakenFrom(Pick(lanes, approved, candidates, Reserve), 0);
  }

  lemma Alone(pool: seq<Seat>, audit: Audit, council: Panel, candidates: seq<Seat>, size: nat, approval: Approval)
    requires |pool| == size > 0 && Best(pool, candidates, Apart(council))
    requires audit == Audit(approval.id, Lanes(pool), [], |Places(candidates, NotLive)|, audit.unapprovedLiveOverlap)
    requires Waiting(audit.unapprovedLiveOverlap, council, candidates, approval)
    ensures Supplied(pool, audit, pool, [], council, candidates, size, approval)
  {
    var lent := Lent(council, approval.lanes);
    assert Best([], candidates, lent);
    hide Best, Places, Waiting, Apart, Lent, Preferred;
    assert pool == pool + [];
    assert LanesAre(audit.disjointLanes, pool) && LanesAre(audit.reserveLanes, []);
  }

  /** A strict pool leaves the reserve alone. */
  lemma StrictSupplied(council: Panel, candidates: seq<Seat>, size: nat, floors: Floors, approval: Approval)
    requires Trim(approval.id) != "" && StrictPool(council, candidates, size, floors).Ok?
    ensures ReserveAnswer(WithReserve(council, candidates, size, floors, approval), council, candidates, size, floors,
      approval)
  {
    hide Best, Places, Meets, Waiting, ShapeDay, StrictPool, Apart, Lent, Trim, Supplied, Lanes, Drawn, Audited;
    StrictAnswers(council, candidates, size, floors);
    DayIs(council, candidates, approval);
    var r := WithReserve(council, candidates, size, floors, approval);
    Alone(r.value.pool, r.value.audit, council, candidates, size, approval);
  }

  lemma FilledDrawn(council: Panel, candidates: seq<Seat>, size: nat, approval: Approval)
    requires |Places(candidates, Apart(council))| < size
    requires size <= |Places(candidates, Apart(council))| + |Places(candidates, Lent(council, approval.lanes))|
    ensures var (d, v) := Filled(council, candidates, size, approval);
      Drawn(d, v, council, candidates, size, approval)
  {
    hide Places, Pick, Sort, LeastOf, Best, CouncilLanes, Approved, Apart, Lent, Filled, ShapeDay, Lanes;
    StandingCounts(council, approval, candidates);
    StandingCounts(council, Approval("", []), candidates);
    NoneApproved(council, candidates);
    FilledLaw(council, candidates, size, approval);
    var (d, v) := Filled(council, candidates, size, approval);
    var lanes, approved := CouncilLanes(council), Approved(approval);
    var apart, reserve := Pick(lanes, approved, candidates, Standing.Apart), Pick(lanes, approved, candidates, Reserve);
    SortSplits(apart, |apart|);
    assert Sort(apart)[..|apart|] == Sort(apart);
    BestApart(council, approval, candidates, d, Sort(apart)[|apart|..]);
    var rest :| LeastOf(v, rest, multiset(reserve));
    BestLent(council, approval, candidates, v, rest);
  }

  lemma ShortfallAnswers(council: Panel, candidates: seq<Seat>, size: nat, floors: Floors, approval: Approval)
    requires size > 0 && Trim(approval.id) != ""
    requires var strict := StrictPool(council, candidates, size, floors); strict.Err? && strict.error.Insufficient?
    ensures ReserveAnswer(WithReserve(council, candidates, size, floors, approval), council, candidates, size, floors,
      approval)
  {
    StrictAnswers(council, candidates, size, floors);
    DayIs(council, candidates, approval);
    DegradedPool(council, candidates, size, approval);
    hide Best, Places, Meets, Refuses, Waiting, ShapeDay, StrictPool, Apart, Lent, Trim, Drawn, OverlapWithin, NotIn;
    hide CouncilLanes, Approved, CheckFloors, Take;
    var day := ShapeDay(council, candidates, approval);
    if |day.disjoint| + |day.reserve| >= size {
      FilledDrawn(council, candidates, size, approval);
      var (d, v) := Filled(council, candidates, size, approval);
      FloorsLaw(d + v, floors);
      var r := WithReserve(council, candidates, size, floors, approval);
      if CheckFloors(d + v, floors).None? {
        assert Supplied(d + v, r.value.audit, d, v, council, candidates, size, approval);
      } else {
        assert Starved(r.error.broken, d, v, council, candidates, size, floors, approval);
      }
    }
  }

  /**
   Every answer of the selection with the reserve: the seats off the council first and then just enough
   of the approved ones on it, each the best there is, with an audit that names them; or the first
   reason why not, with its figures.
   */
  lemma {:induction false} ReserveAnswers(council: Panel, candidates: seq<Seat>, size: nat, floors: Floors,
      approval: Approval)
    ensures ReserveAnswer(WithReserve(council, candidates, size, floors, approval), council, candidates, size, floors,
      approval)
  {
    StrictAnswers(council, candidates, size, floors);
    hide Best, Places, Meets, Refuses, Waiting, ShapeDay, StrictPool, Apart, Lent, Trim, Drawn, OverlapWithin, NotIn;
    if size > 0 && Trim(approval.id) != "" {
      var strict := StrictPool(council, candidates, size, floors);
      if strict.Ok? {
        StrictSupplied(council, candidates, size, floors, approval);
      } else if strict.error.Insufficient? {
        ShortfallAnswers(council, candidates, size, floors, approval);
      }
    }
  }
}
