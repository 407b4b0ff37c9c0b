/**
 One question, one live consultation: when crates/caddis-bitynas/src/resource.rs keeps that promise,
 and the one operation that breaks it.
 */
module LeaseJoin {
  import opened Wrappers
  import opened Lease
  import opened LeaseOps
  import opened LeaseRuns
  import opened LeaseSafety

  /** No two slots hold live quorum leases on one question. */
  ghost predicate OneEach(live: Index, now: int) {
    forall a, b, hash ::
      a in live && b in live && Consults(live[a], hash, Stamp(now)) && Consults(live[b], hash, Stamp(now)) ==> a == b
  }

  /**
   A heartbeat by the holder of an expired quorum lease, while another lease on its question lives:
   `heartbeat` does not look at staleness, so the expired lease comes back.
   */
  ghost predicate Revives(live: Index, op: Op) {
    && op.HeartbeatOp? && HeldBy(live, op.slot, op.owner)
    && var r := live[op.slot];
      && TypeOf(op.slot) == Quorum && r.question.Some? && AsI64(r.ttl) >= 0
      && r.Stale(Stamp(op.now)) && FindActive(live, r.question.value, Stamp(op.now)).Some?
  }

  /** With time alone leases only die. */
  lemma TimeKills(live: Index, clock: int, now: int)
    requires clock <= now && OneEach(live, clock)
    ensures forall r: Record, hash :: Consults(r, hash, Stamp(now)) ==> Consults(r, hash, Stamp(clock))
    ensures OneEach(live, now)
  {
    hide TypeOf, AsI64;
  }

  lemma ClaimKeepsOne(live: Index, op: Op, clock: int)
    requires op.ClaimOp? && OneEach(live, clock) && clock <= op.now <= op.mint
    ensures OneEach(IndexAfter(live, op), op.mint)
  {
    hide TypeOf, AsI64, SlotName;
    TimeKills(live, clock, op.now);
    TimeKills(live, op.now, op.mint);
    if op.hash.Some? && Decide(live, op) != Refuse {
      var none := FindActive(live, op.hash.value, Stamp(op.now));
    }
  }

  lemma SubsetKeepsOne(live: Index, after: Index, now: int)
    requires OneEach(live, now) && after.Keys <= live.Keys && forall k :: k in after ==> after[k] == live[k]
    ensures OneEach(after, now)
  {
    hide TypeOf, AsI64;
  }

  lemma HeartbeatLaw(live: Index, op: Op, clock: int)
    requires Keyed(live) && op.HeartbeatOp? && OneEach(live, clock) && clock <= op.now
    ensures OneEach(IndexAfter(live, op), op.now) <==> !Revives(live, op)
  {
    hide TypeOf, AsI64;
    TimeKills(live, clock, op.now);
    var after, now := IndexAfter(live, op), Stamp(op.now);
    if HeldBy(live, op.slot, op.owner) {
      var before, revived := live[op.slot], after[op.slot];
      assert revived.slot == op.slot;
      if Revives(live, op) {
        var hash := before.question.value;
        var k :| k in live && Consults(live[k], hash, now);
        assert k != op.slot && after[k] == live[k];
        assert Consults(after[k], hash, now) && Consults(revived, hash, now);
      } else {
        forall a, b, hash | a in after && b in after && Consults(after[a], hash, now) && Consults(after[b], hash, now)
          ensures a == b
        {
          var other := if a == op.slot then b else a;
          assert other != op.slot ==> after[other] == live[other];
          if before.Stale(now) && other != op.slot {
            assert Consults(live[other], hash, now);
          }
        }
      }
    }
  }

  /**
   The promise is kept by exactly the operations that do not revive: from a state in which each
   question has at most one live lease, the operation leaves such a state if and only if it is not a
   heartbeat on an expired lease whose question another live lease already consults.
   */
  lemma {:induction false} OneEachLaw(live: Index, op: Op, clock: int)
    requires Keyed(live) && OneEach(live, clock) && Tick(op, clock).Some?
    ensures OneEach(IndexAfter(live, op), Tick(op, clock).value) <==> !Revives(live, op)
  {
    hide OneEach;
    var now := Tick(op, clock).value;
    TimeKills(live, clock, now);
    match op
    case ClaimOp(_, _, _, _, _, _, _) => ClaimKeepsOne(live, op, clock);
    case HeartbeatOp(_, _, _) => HeartbeatLaw(live, op, clock);
    case _ => SubsetKeepsOne(live, IndexAfter(live, op), now);
  }

  ghost predicate NeverRevives(s: State, es: seq<Event>)
    decreases |es|
  {
    es == [] || (!Revives(s.index, es[0].op) && NeverRevives(Next(s, es[0]), es[1..]))
  }

  function ClockAfter(es: seq<Event>, clock: int): int
    requires Monotone(es, clock)
    decreases |es|
  {
    if es == [] then clock else ClockAfter(es[1..], Tick(es[0].op, clock).value)
  }

  lemma EventKeepsOne(s: State, e: Event, clock: int)
    requires Consistent(s) && OneEach(s.index, clock) && Tick(e.op, clock).Some? && !Revives(s.index, e.op)
    ensures OneEach(Next(s, e).index, Tick(e.op, clock).value)
  {
    hide OneEach, Revives, IndexAfter, RowsOf;
    FoldKeyed(s.rows);
    OneEachLaw(s.index, e.op, clock);
    TimeKills(s.index, clock, Tick(e.op, clock).value);
    if e.Crashed? {
      var rows := Cut(RowsOf(s.index, e.op), e.kept);
      var mid := Replay(s.index, rows);
      ReplayAppend(map[], s.rows, rows);
      CutIndex(s.index, e.op, e.kept);
      if OnlyStaleFreed(s.index, mid, e.op) {
        SubsetKeepsOne(s.index, mid, Tick(e.op, clock).value);
      }
    }
  }

  /** So in every run without such a heartbeat, crashes included, one question has one live lease. */
  lemma {:induction false} OneLiveLeasePerQuestion(s: State, es: seq<Event>, clock: int)
    requires Consistent(s) && OneEach(s.index, clock) && Monotone(es, clock) && NeverRevives(s, es)
    ensures OneEach(After(s, es).index, ClockAfter(es, clock))
    decreases |es|
  {
    hide OneEach, Revives, Next, Consistent;
    if es != [] {
      EventKeepsOne(s, es[0], clock);
      NextConsistent(s, es[0]);
      OneLiveLeasePerQuestion(Next(s, es[0]), es[1..], Tick(es[0].op, clock).value);
    }
  }

  // ---------- the run that breaks the promise ----------

  function Ask(id: string, owner: Owner, now: int): Op {
    ClaimOp(Quorum, id, "premium", owner, Some("why?"), now, now)
  }

  lemma AskMints(id: string, owner: Owner, now: int)
    requires id == "a" || id == "b"
    ensures Claimable(Quorum, id, "premium", Some("why?"))
    ensures TypeOf("quorum:" + id) == Quorum && SlotName(Quorum, id) == "quorum:" + id
    ensures Minted(Ask(id, owner, now)) == FreshRecord("quorum:" + id, "premium", owner, 7200, Some("why?"), now)
  {
    assert ("quorum:" + id)[0] == 'q';
    assert Prefix(Quorum) <= "quorum:" + id;
  }

  lemma FreeClaim(s: State, op: Op)
    requires op.ClaimOp? && Claimable(op.resource, op.id, op.lane, op.hash) && SlotName(op.resource, op.id) !in s.index
    requires op.hash.Some? && forall k :: k in s.index ==> !Consults(s.index[k], op.hash.value, Stamp(op.now))
    ensures Step(s, op).index == s.index[SlotName(op.resource, op.id) := Minted(op)]
  {
  }

  /** The first asker outlives its lease, a second one claims the same question, the first heartbeats. */
  lemma {:induction false} TwoLiveConsultations(first: Owner, second: Owner)
    ensures var es := [Done(Ask("a", first, 0)), Done(Ask("b", second, 7201)),
      Done(HeartbeatOp("quorum:" + "a", first, 7201))];
      Monotone(es, 0) && !OneEach(After(State([], map[], []), es).index, 7201)
  {
    hide Claimable, TypeOf, Step;
    var a, b := "quorum:" + "a", "quorum:" + "b";
    var h := HeartbeatOp(a, first, 7201);
    AskMints("a", first, 0);
    AskMints("b", second, 7201);
    assert a[|a| - 1] == 'a' && b[|b| - 1] == 'b';
    var s0 := State([], map[], []);
    var s1, ra := Step(s0, Ask("a", first, 0)), Minted(Ask("a", first, 0));
    FreeClaim(s0, Ask("a", first, 0));
    assert s1.index == map[a := ra];
    var s2, rb := Step(s1, Ask("b", second, 7201)), Minted(Ask("b", second, 7201));
    assert ra.Stale(Stamp(7201));
    FreeClaim(s1, Ask("b", second, 7201));
    assert s2.index == map[a := ra, b := rb];
    Comeback(s2, h, ra, b);
    ThreeSteps(s0, Ask("a", first, 0), Ask("b", second, 7201), h);
  }

  lemma Comeback(s: State, op: Op, r: Record, other: string)
    requires op.HeartbeatOp? && op.slot in s.index && s.index[op.slot] == r && r.Holder() == op.owner
      && other != op.slot
    requires r.slot == op.slot && TypeOf(op.slot) == Quorum && r.question == Some("why?") && r.ttl == 7200
    requires other in s.index && Consults(s.index[other], "why?", Stamp(op.now))
    ensures !OneEach(Step(s, op).index, op.now)
  {
    hide TypeOf;
    var after := Step(s, op).index;
    assert Consults(after[op.slot], "why?", Stamp(op.now)) && Consults(after[other], "why?", Stamp(op.now));
  }

  lemma ThreeSteps(s: State, a: Op, b: Op, c: Op)
    ensures After(s, [Done(a), Done(b), Done(c)]) == Step(Step(Step(s, a), b), c)
    ensures Monotone([Done(a), Done(b), Done(c)], 0) <==>
      && Tick(a, 0).Some? && Tick(b, Tick(a, 0).value).Some?
      && Tick(c, Tick(b, Tick(a, 0).value).value).Some?
  {
    hide Step, Tick;
    var es := [Done(a), Done(b), Done(c)];
    assert es[1..] == [Done(b), Done(c)] && [Done(b), Done(c)][1..] == [Done(c)] && [Done(c)][1..] == [];
    assert After(Step(Step(s, a), b), [Done(c)]) == Step(Step(Step(s, a), b), c);
    assert After(Step(s, a), [Done(b), Done(c)]) == After(Step(Step(s, a), b), [Done(c)]);
    var t := Tick(a, 0);
    if t.Some? {
      var u := Tick(b, t.value);
      assert u.Some? ==> (Monotone([Done(c)], u.value) <==> Tick(c, u.value).Some?);
      assert Monotone([Done(b), Done(c)], t.value) <==> u.Some? && Monotone([Done(c)], u.value);
    }
  }
}
