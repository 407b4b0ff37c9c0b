/**
 Seats, the selection order and the floors shared by council and quorum:
 crates/caddis-deliberate/src/lib.rs.
 */
module Seats {
  import opened Wrappers
  import opened Text
  import opened Cards

  datatype Seat = Seat(
    lane: string, laneType: LaneType, family: string, provider: string, model: string,
    costClass: CostClass, state: SeatState, caps: nat, lastProbe: Option<nat>)
  {
    function Rank(): nat {
      match costClass
      case Free => 0
      case Mid => 1
      case Premium => 2
    }

    predicate Selectable() {
      state.Live?
    }
  }

  /** `selection_key` order: free first, ties by lane id. */
  predicate Before(a: Seat, b: Seat) {
    a.Rank() < b.Rank() || (a.Rank() == b.Rank() && StrLe(a.lane, b.lane))
  }

  lemma BeforeTotal(a: Seat, b: Seat)
    ensures Before(a, b) || Before(b, a)
    ensures Before(a, b) && Before(b, a) ==> a.lane == b.lane
  {
    StrLeTotal(a.lane, b.lane);
  }

  lemma BeforeTransitive(a: Seat, b: Seat, c: Seat)
    requires Before(a, b) && Before(b, c)
    ensures Before(a, c)
  {
    if a.Rank() == b.Rank() == c.Rank() {
      StrLeTransitive(a.lane, b.lane, c.lane);
    }
  }

  ghost predicate InOrder(s: seq<Seat>) {
    forall i, j :: 0 <= i < j < |s| ==> Before(s[i], s[j])
  }

  ghost predicate DistinctLanes(s: seq<Seat>) {
    forall i, j :: 0 <= i < j < |s| ==> s[i].lane != s[j].lane
  }

  /** A later seat goes behind every seat it does not precede: the sort is stable. */
  function Insert(s: seq<Seat>, x: Seat): (r: seq<Seat>)
    decreases |s|
  {
    if s == [] || Before(s[|s| - 1], x) then s + [x]
    else Insert(s[..|s| - 1], x) + [s[|s| - 1]]
  }

  /** `sort_by_key(selection_key)`. */
  function Sort(s: seq<Seat>): (r: seq<Seat>)
    decreases |s|
  {
    if s == [] then [] else Insert(Sort(s[..|s| - 1]), s[|s| - 1])
  }

  lemma {:induction false} InsertKeeps(s: seq<Seat>, x: Seat)
    requires InOrder(s)
    ensures InOrder(Insert(s, x)) && multiset(Insert(s, x)) == multiset(s) + multiset{x}
    decreases |s|
  {
    hide Before;
    if s != [] {
      var front, last := s[..|s| - 1], s[|s| - 1];
      assert s == front + [last];
      if Before(last, x) {
        forall i | 0 <= i < |front| ensures Before(s[i], x) {
          BeforeTransitive(s[i], last, x);
        }
      } else {
        InsertKeeps(front, x);
        BeforeTotal(last, x);
        var r := Insert(front, x);
        forall i | 0 <= i < |r| ensures Before(r[i], last) {
          assert r[i] in multiset(r);
          assert r[i] == x || r[i] in front;
        }
      }
    }
  }

  lemma {:induction false} SortOrders(s: seq<Seat>)
    ensures InOrder(Sort(s)) && multiset(Sort(s)) == multiset(s) && |Sort(s)| == |s|
    decreases |s|
  {
    if s != [] {
      var front := s[..|s| - 1];
      SortOrders(front);
      InsertKeeps(Sort(front), s[|s| - 1]);
      assert s == front + [s[|s| - 1]];
    }
    assert |multiset(Sort(s))| == |multiset(s)|;
  }

  lemma MemberIndex(s: seq<Seat>, x: Seat) returns (i: nat)
    requires x in multiset(s)
    ensures i < |s| && s[i] == x
  {
    i :| 0 <= i < |s| && s[i] == x;
  }

  lemma DropLast(s: seq<Seat>, x: Seat)
    requires s != [] && x == s[|s| - 1]
    ensures multiset(s[..|s| - 1]) == multiset(s) - multiset{x}
    ensures InOrder(s) ==> InOrder(s[..|s| - 1])
    ensures DistinctLanes(s) ==> DistinctLanes(s[..|s| - 1])
  {
    hide Before;
    assert s == s[..|s| - 1] + [x];
  }

  /** Both arrangements end in the same seat. */
  lemma SameLast(a: seq<Seat>, b: seq<Seat>)
    requires a != [] && b != [] && InOrder(a) && InOrder(b) && DistinctLanes(a) && multiset(a) == multiset(b)
    ensures a[|a| - 1] == b[|b| - 1]
  {
    hide Before;
    var la, lb := a[|a| - 1], b[|b| - 1];
    assert la in multiset(a) && lb in multiset(b);
    var i := MemberIndex(b, la);
    var j := MemberIndex(a, lb);
    BeforeTotal(la, lb);
  }

  lemma FrontsAgree(a: seq<Seat>, b: seq<Seat>)
    requires a != [] && b != [] && InOrder(a) && InOrder(b) && DistinctLanes(a) && multiset(a) == multiset(b)
    ensures a[|a| - 1] == b[|b| - 1]
    ensures var fa, fb := a[..|a| - 1], b[..|b| - 1];
      InOrder(fa) && InOrder(fb) && DistinctLanes(fa) && multiset(fa) == multiset(fb)
  {
    hide InOrder, DistinctLanes;
    SameLast(a, b);
    DropLast(a, a[|a| - 1]);
    DropLast(b, b[|b| - 1]);
  }

  lemma Rejoin(a: seq<Seat>, b: seq<Seat>)
    requires a != [] && b != [] && a[..|a| - 1] == b[..|b| - 1] && a[|a| - 1] == b[|b| - 1]
    ensures a == b
  {
    assert a == a[..|a| - 1] + [a[|a| - 1]] && b == b[..|b| - 1] + [b[|b| - 1]];
  }

  /** With distinct lanes there is one sorted arrangement of the same seats. */
  lemma {:induction false} OneOrder(a: seq<Seat>, b: seq<Seat>)
    requires InOrder(a) && InOrder(b) && DistinctLanes(a) && multiset(a) == multiset(b)
    ensures a == b
    decreases |a|
  {
    hide InOrder, DistinctLanes;
    SameLength(a, b);
    if a != [] {
      FrontsAgree(a, b);
      OneOrder(a[..|a| - 1], b[..|b| - 1]);
      Rejoin(a, b);
    }
  }

  lemma {:induction false} SortUnique(a: seq<Seat>, b: seq<Seat>)
    requires DistinctLanes(a) && multiset(a) == multiset(b)
    ensures Sort(a) == Sort(b)
  {
    SortOrders(a);
    SortOrders(b);
    DistinctPermuted(a, Sort(a));
    OneOrder(Sort(a), Sort(b));
  }

  lemma {:induction false} DistinctPermuted(a: seq<Seat>, b: seq<Seat>)
    requires DistinctLanes(a) && multiset(a) == multiset(b)
    ensures DistinctLanes(b)
  {
    forall i, j | 0 <= i < j < |b| ensures b[i].lane != b[j].lane {
      if b[i].lane == b[j].lane {
        assert b[i] in multiset(b) && b[j] in multiset(b);
        var p := MemberIndex(a, b[i]);
        var q := MemberIndex(a, b[j]);
        assert p == q;
        TwiceIn(b, i, j);
        OnceIn(a, p);
        assert false;
      }
    }
  }

  lemma TwiceIn(s: seq<Seat>, i: nat, j: nat)
    requires i < j < |s| && s[i] == s[j]
    ensures multiset(s)[s[i]] >= 2
  {
    assert s == s[..j] + [s[j]] + s[j + 1..];
    assert s[i] in s[..j];
    assert multiset(s) == multiset(s[..j]) + multiset{s[j]} + multiset(s[j + 1..]);
  }

  lemma OnceIn(s: seq<Seat>, p: nat)
    requires DistinctLanes(s) && p < |s|
    ensures multiset(s)[s[p]] == 1
  {
    assert s == s[..p] + [s[p]] + s[p + 1..];
    assert multiset(s) == multiset(s[..p]) + multiset{s[p]} + multiset(s[p + 1..]);
    assert s[p] !in s[..p] && s[p] !in s[p + 1..];
  }

  // ---------- filtering ----------

  /** The seats that satisfy `p`, in their order. */
  function Keep(s: seq<Seat>, p: Seat -> bool): (r: seq<Seat>)
    ensures forall x :: x in r <==> x in s && p(x)
    decreases |s|
  {
    if s == [] then []
    else
      assert s == s[..|s| - 1] + [s[|s| - 1]];
      Keep(s[..|s| - 1], p) + if p(s[|s| - 1]) then [s[|s| - 1]] else []
  }

  lemma {:induction false} KeepCounts(s: seq<Seat>, p: Seat -> bool, x: Seat)
    ensures multiset(Keep(s, p))[x] == if p(x) then multiset(s)[x] else 0
    decreases |s|
  {
    if s != [] {
      KeepCounts(s[..|s| - 1], p, x);
      assert s == s[..|s| - 1] + [s[|s| - 1]];
    }
  }

  lemma {:induction false} KeepDistinct(s: seq<Seat>, p: Seat -> bool)
    requires DistinctLanes(s)
    ensures DistinctLanes(Keep(s, p))
    decreases |s|
  {
    if s != [] {
      var front := s[..|s| - 1];
      KeepDistinct(front, p);
      var kept := Keep(front, p);
      forall i | 0 <= i < |kept| ensures kept[i].lane != s[|s| - 1].lane {
        assert kept[i] in front;
      }
    }
  }

  lemma SameLength<T(!new)>(a: seq<T>, b: seq<T>)
    requires multiset(a) == multiset(b)
    ensures |a| == |b| && forall x :: x in a <==> x in b
  {
    assert |multiset(a)| == |multiset(b)|;
    forall x: T ensures x in a <==> x in b {
      assert x in multiset(a) <==> x in multiset(b);
    }
  }

  /** What is kept, counted or sorted does not depend on the order distinct seats arrive in. */
  lemma KeepPermuted(a: seq<Seat>, b: seq<Seat>, p: Seat -> bool)
    requires DistinctLanes(a) && multiset(a) == multiset(b)
    ensures |Keep(a, p)| == |Keep(b, p)| && Sort(Keep(a, p)) == Sort(Keep(b, p))
    ensures forall x :: x in Keep(a, p) <==> x in Keep(b, p)
  {
    forall x: Seat ensures multiset(Keep(a, p))[x] == multiset(Keep(b, p))[x] {
      KeepCounts(a, p, x);
      KeepCounts(b, p, x);
    }
    KeepDistinct(a, p);
    hide Keep, Sort, DistinctLanes;
    SortUnique(Keep(a, p), Keep(b, p));
    SameLength(Keep(a, p), Keep(b, p));
  }

  // ---------- floors ----------

  const CHINESE_FAMILIES: seq<string> := [
    "zai", "zhipu", "bigmodel", "deepseek", "qwen", "alibaba", "moonshot", "kimi", "minimax",
    "01ai", "baichuan", "doubao", "ernie", "baidu", "hunyuan", "tencent"]

  function Lower(s: string): string {
    if s == [] then []
    else [if 'A' <= s[0] <= 'Z' then (s[0] as int + 32) as char else s[0]] + Lower(s[1..])
  }

  predicate IsChinese(family: string) {
    Lower(family) in CHINESE_FAMILIES
  }

  datatype Floors = Floors(panelSize: nat, minFamilies: nat, minNonChinese: nat)

  function Families(s: seq<Seat>): set<string> {
    set x | x in s :: x.family
  }

  function NonChinese(s: seq<Seat>): nat {
    if s == [] then 0 else (if IsChinese(s[0].family) then 0 else 1) + NonChinese(s[1..])
  }

  datatype PanelErr =
    | PanelSizeOutOfRange(given: nat, max: nat)
    | NotEnoughLiveSeats(have: nat, need: nat)
    | FamiliesFloor(have: nat, want: nat)
    | NonChineseFloor(have: nat, want: nat)

  /** Families first, then the seats from outside the Chinese cluster. */
  function CheckFloors(s: seq<Seat>, floors: Floors): Option<PanelErr> {
    if |Families(s)| < floors.minFamilies then Some(FamiliesFloor(|Families(s)|, floors.minFamilies))
    else if NonChinese(s) < floors.minNonChinese then Some(NonChineseFloor(NonChinese(s), floors.minNonChinese))
    else None
  }

  // ---------- panels ----------

  datatype Role = Chair | Synthesist | Critic | LogicChecker

  const ROLE_ORDER := [Chair, Synthesist, Critic, LogicChecker]

  datatype PanelSeat = PanelSeat(role: Role, seat: Seat)

  type Panel = seq<PanelSeat>

  function SeatsOf(panel: Panel): seq<Seat> {
    seq(|panel|, i requires 0 <= i < |panel| => panel[i].seat)
  }

  function LiveOf(s: seq<Seat>): seq<Seat> {
    Keep(s, (x: Seat) => x.Selectable())
  }

  function Seated(s: seq<Seat>): Panel
    requires |s| <= |ROLE_ORDER|
  {
    seq(|s|, i requires 0 <= i < |s| => PanelSeat(ROLE_ORDER[i], s[i]))
  }

  function ConstructPanel(candidates: seq<Seat>, floors: Floors): Result<Panel, PanelErr> {
    if floors.panelSize == 0 || floors.panelSize > |ROLE_ORDER| then
      Err(PanelSizeOutOfRange(floors.panelSize, |ROLE_ORDER|))
    else if |LiveOf(candidates)| < floors.panelSize then
      Err(NotEnoughLiveSeats(|LiveOf(candidates)|, floors.panelSize))
    else
      SortOrders(LiveOf(candidates));
      var taken := Sort(LiveOf(candidates))[..floors.panelSize];
      match CheckFloors(taken, floors)
      case Some(e) => Err(e)
      case None => Ok(Seated(taken))
  }

  /**
   A constructed panel seats the `panelSize` least live candidates in the role order, and it is the
   same panel whatever order distinct candidates arrive in.
   */
  lemma {:induction false} PanelLaw(candidates: seq<Seat>, shuffled: seq<Seat>, floors: Floors)
    requires DistinctLanes(candidates) && multiset(candidates) == multiset(shuffled)
    ensures ConstructPanel(candidates, floors) == ConstructPanel(shuffled, floors)
    ensures ConstructPanel(candidates, floors).Ok? ==>
      var panel := ConstructPanel(candidates, floors).value;
      && |panel| == floors.panelSize
      && (forall i :: 0 <= i < |panel| ==> panel[i].role == ROLE_ORDER[i])
      && CheckFloors(SeatsOf(panel), floors).None?
      && exists rest :: LeastOf(SeatsOf(panel), rest, multiset(LiveOf(candidates)))
  {
    hide Before, InOrder, LeastOf, CheckFloors, Keep, Sort, DistinctLanes;
    var live := LiveOf(candidates);
    KeepPermuted(candidates, shuffled, (x: Seat) => x.Selectable());
    if ConstructPanel(candidates, floors).Ok? {
      SortSplits(live, floors.panelSize);
      var panel := ConstructPanel(candidates, floors).value;
      assert SeatsOf(panel) == Sort(live)[..floors.panelSize];
      assert LeastOf(SeatsOf(panel), Sort(live)[floors.panelSize..], multiset(live));
    }
  }

  /** A split of the seats of `all` into `taken`, in order, none of which comes after any of the rest. */
  ghost predicate LeastOf(taken: seq<Seat>, rest: seq<Seat>, all: multiset<Seat>) {
    && multiset(taken) + multiset(rest) == all && InOrder(taken)
    && forall i, j :: 0 <= i < |taken| && 0 <= j < |rest| ==> Before(taken[i], rest[j])
  }

  lemma SortSplits(s: seq<Seat>, n: nat)
    requires n <= |s|
    ensures |Sort(s)| == |s| && LeastOf(Sort(s)[..n], Sort(s)[n..], multiset(s))
  {
    hide Before;
    SortOrders(s);
    var t := Sort(s);
    assert t == t[..n] + t[n..];
  }
}
