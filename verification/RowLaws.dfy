/**
 What the quorum's ledger row says and what its reader accepts, over the members of the row:
 crates/caddis-deliberate/src/quorum.rs.
 */
module RowLaws {
  import opened Wrappers
  import opened Text
  import opened Decimals
  import opened Json
  import opened Flat
  import opened Members
  import opened Seats
  import opened Votes
  import opened VoteLaws
  import opened QuorumRows
  import S = Sessions

  // ---------- what a session's row says ----------

  ghost function StakesText(s: S.Stakes): string {
    if s.Small? then "small" else if s.Medium? then "medium" else "complex"
  }

  /** The sixteen members of a session's row. */
  ghost function Shape(s: S.QuorumSession, ballot: Ballot, ruling: Ruling, digest: string): seq<Member> {
    [Member("conv", Str(s.id)), Member("kind", Str("quorum")), Member("pin", Str(s.pin)),
     Member("council", Str(s.council)), Member("stakes", Str(StakesText(s.stakes))),
     Member("rerun_of", Str(match s.rerunOf case Some(id) => id case None => "")),
     Member("actor", Str(s.gate.actor)), Member("warden_card", Str(s.gate.wardenCard)),
     Member("ship", Num(Int(Tally(ballot.replies, Ship)))),
     Member("ship_with_changes", Num(Int(Tally(ballot.replies, ShipWithChanges)))),
     Member("do_not_ship", Num(Int(Tally(ballot.replies, DoNotShip)))),
     Member("missing", Num(Int(|ballot.missing|))), Member("ruled", Str(VoteLaws.Word(ruling.position))),
     Member("floor", Str(Dec(Tally(ballot.replies, ruling.position)) + "/" + Dec(|s.pool|))),
     Member("degraded", Str(if ballot.missing == [] then "false" else "true")),
     Member("verdict_digest", Str(digest))]
  }

  lemma ShapeIs(s: S.QuorumSession, ballot: Ballot, ruling: Ruling, digest: string)
    requires Decide(|s.pool|, ballot) == Ok(ruling)
    ensures RowMembers(RowOf(s, ballot, ruling, digest)) == Shape(s, ballot, ruling, digest)
  {
    hide Tally, Decide, Takers, Holders, Dec;
    HoldersCounted(ballot.replies, Ship);
    HoldersCounted(ballot.replies, ShipWithChanges);
    HoldersCounted(ballot.replies, DoNotShip);
    DecideAnswers(|s.pool|, ballot);
    TakersCount(ruling.agreeing, ballot.replies, ruling.position);
    assert StakesWord(s.stakes) == StakesText(s.stakes);
    assert PositionWord(ruling.position) == VoteLaws.Word(ruling.position);
    hide StakesWord, StakesText, PositionWord, VoteLaws.Word;
  }

  /** The row of every decided session, within the reader's cap, is the object of these members. */
  lemma {:induction false} SessionRowSays(s: S.QuorumSession, replies: seq<Reply>, digest: string)
    requires DistinctLanes(s.pool) && |s.pool| < U64_LIMIT
    requires Collect(s.pool, replies).Ok? && Decide(|s.pool|, Collect(s.pool, replies).value).Ok?
    ensures var ballot := Collect(s.pool, replies).value;
      var ruling := Decide(|s.pool|, ballot).value;
      var line := RowLine(RowOf(s, ballot, ruling, digest));
      Bytes(line) <= MAX_BYTES ==> Parse(line) == Ok(Obj(Shape(s, ballot, ruling, digest)))
  {
    hide Collect, Decide, Count, RowLine, Parse, Bytes, DistinctLanes, Shape, RowMembers;
    var ballot := Collect(s.pool, replies).value;
    var ruling := Decide(|s.pool|, ballot).value;
    BallotAccountsForPool(s.pool, replies);
    WordsPlain(s.stakes, ruling.position);
    hide Plain, StakesWord, PositionWord;
    assert Written(RowOf(s, ballot, ruling, digest));
    hide RowOf, Written;
    RowReads(RowOf(s, ballot, ruling, digest));
    ShapeIs(s, ballot, ruling, digest);
  }

  // ---------- what the reader accepts ----------

  /** A whole number; its double, or the largest count when that is beyond the range. */
  ghost predicate HasCount(ms: seq<Member>, key: string, n: nat) {
    exists w: nat :: Has(ms, key, Num(Int(w))) && Cast(w, n)
  }

  ghost predicate Cast(w: nat, n: nat) {
    n == if Double(w) < 0x1_0000_0000_0000_0000 then Double(w) else 0xFFFF_FFFF_FFFF_FFFF
  }

  /** The sixteen names, each once. */
  ghost predicate Sixteen(ms: seq<Member>) {
    && |ms| == 16
    && (forall i, j :: 0 <= i < j < 16 ==> ms[i].key != ms[j].key)
    && (forall i :: 0 <= i < 16 ==> ms[i].key in {
        "conv", "kind", "pin", "council", "stakes", "rerun_of", "actor", "warden_card", "ship",
        "ship_with_changes", "do_not_ship", "missing", "ruled", "floor", "degraded", "verdict_digest"})
  }

  ghost predicate SaysRow(ms: seq<Member>, r: QuorumRow) {
    && Has(ms, "conv", Str(r.conv)) && Has(ms, "kind", Str("quorum")) && Has(ms, "pin", Str(r.pin))
    && Has(ms, "council", Str(r.council)) && Has(ms, "stakes", Str(r.stakes))
    && Has(ms, "rerun_of", Str(r.rerunOf)) && Has(ms, "actor", Str(r.actor))
    && Has(ms, "warden_card", Str(r.wardenCard)) && HasCount(ms, "ship", r.ship)
    && HasCount(ms, "ship_with_changes", r.shipWithChanges) && HasCount(ms, "do_not_ship", r.doNotShip)
    && HasCount(ms, "missing", r.missing) && Has(ms, "ruled", Str(r.ruled)) && Has(ms, "floor", Str(r.floor))
    && Has(ms, "degraded", Str(if r.degraded then "true" else "false"))
    && Has(ms, "verdict_digest", Str(r.digest))
  }

  /** A 64-bit number in digits alone. */
  ghost predicate Digits(text: string, n: nat) {
    text != "" && AllDigits(text) && DecValue(text) == n < 0x1_0000_0000_0000_0000
  }

  /** `text` is the two numbers with a slash between. */
  ghost predicate Ratio(text: string, a: nat, pool: nat) {
    exists m, n :: text == m + "/" + n && Digits(m, a) && Digits(n, pool)
  }

  ghost predicate RuledBy(r: QuorumRow, votes: nat) {
    || (r.ruled == "ship" && votes == r.ship)
    || (r.ruled == "ship_with_changes" && votes == r.shipWithChanges)
    || (r.ruled == "do_not_ship" && votes == r.doNotShip)
  }

  /**
   The floor is a strict majority of a pool of two or more, the ruled position reaches it, the four
   counts make the pool up to 64-bit overflow, and the row is degraded exactly when a seat is missing.
   */
  ghost predicate Coheres(r: QuorumRow, votes: nat, a: nat, pool: nat) {
    && Ratio(r.floor, a, pool) && RuledBy(r, votes)
    && pool >= 2 && 2 * a > pool && votes >= a
    && (r.ship + r.shipWithChanges + r.doNotShip + r.missing) % 0x1_0000_0000_0000_0000 == pool
    && (r.degraded <==> r.missing > 0)
    && |r.digest| == 64
    && (forall i :: 0 <= i < 64 ==> '0' <= r.digest[i] <= '9' || 'a' <= r.digest[i] <= 'f')
  }

  ghost predicate Coherent(r: QuorumRow) {
    exists votes: nat, a: nat, pool: nat :: Coheres(r, votes, a, pool)
  }

  lemma {:induction false} SplitMeans(s: string)
    ensures forall a, b :: '/' !in a && s == a + "/" + b ==> SplitOnce(s, '/') == Some((a, b))
  {
    forall a, b | '/' !in a && s == a + "/" + b ensures SplitOnce(s, '/') == Some((a, b)) {
      assert "/" == ['/'];
      SplitAt(a, b, '/');
    }
  }

  lemma RatioMeans(text: string)
    ensures forall a: nat, pool: nat :: ParseFloor(text) == Some((a, pool)) <==> Ratio(text, a, pool)
  {
    hide SplitOnce, DecValue;
    SplitMeans(text);
    assert "/" == ['/'];
    forall a: nat, pool: nat ensures ParseFloor(text) == Some((a, pool)) <==> Ratio(text, a, pool) {
      if ParseFloor(text) == Some((a, pool)) {
        var (m, n) := SplitOnce(text, '/').value;
        assert text == m + "/" + n && Digits(m, a) && Digits(n, pool);
      }
      if Ratio(text, a, pool) {
        var m, n :| text == m + "/" + n && Digits(m, a) && Digits(n, pool);
        assert '/' !in m;
      }
    }
  }

  lemma MajorityMeans(a: nat, pool: nat)
    ensures pool >= 2 ==> (a >= 1 && a >= pool / 2 + 1 <==> 2 * a > pool)
  {
  }

  lemma CoherentMeans(r: QuorumRow)
    ensures Accepts(r) <==> Coherent(r)
  {
    hide ParseFloor, Ratio;
    RatioMeans(r.floor);
    if Accepts(r) {
      var (a, pool) := ParseFloor(r.floor).value;
      MajorityMeans(a, pool);
      assert Coheres(r, RuledCount(r).value, a, pool);
    }
    if Coherent(r) {
      var votes: nat, a: nat, pool: nat :| Coheres(r, votes, a, pool);
      assert ParseFloor(r.floor) == Some((a, pool));
      MajorityMeans(a, pool);
      assert RuledCount(r) == Some(votes);
    }
  }

  lemma CountIs(ms: seq<Member>, key: string)
    ensures forall n: nat :: GetCount(ms, key) == Ok(n) <==> HasCount(ms, key, n)
  {
    hide Get, Has, Double;
    forall n: nat ensures GetCount(ms, key) == Ok(n) <==> HasCount(ms, key, n) {
      if GetCount(ms, key) == Ok(n) {
        var d := Get(ms, key).value.n;
        HasIs(ms, key, Num(d));
        assert Has(ms, key, Num(Int(d.Floor))) && Cast(d.Floor, n);
      }
      if HasCount(ms, key, n) {
        var w: nat :| Has(ms, key, Num(Int(w))) && Cast(w, n);
        HasIs(ms, key, Num(Int(w)));
      }
    }
  }

  ghost predicate NamesRead(ms: seq<Member>, r: QuorumRow) {
    && GetStr(ms, "kind") == Ok("quorum") && GetStr(ms, "conv") == Ok(r.conv) && GetStr(ms, "pin") == Ok(r.pin)
    && GetStr(ms, "council") == Ok(r.council) && GetStr(ms, "stakes") == Ok(r.stakes)
    && GetStr(ms, "rerun_of") == Ok(r.rerunOf) && GetStr(ms, "actor") == Ok(r.actor)
    && GetStr(ms, "warden_card") == Ok(r.wardenCard)
  }

  ghost predicate VerdictRead(ms: seq<Member>, r: QuorumRow) {
    && GetStr(ms, "ruled") == Ok(r.ruled) && GetStr(ms, "floor") == Ok(r.floor)
    && GetStr(ms, "degraded").Ok? && ReadBool(GetStr(ms, "degraded").value) == Ok(r.degraded)
    && GetStr(ms, "verdict_digest") == Ok(r.digest)
  }

  ghost predicate CountsRead(ms: seq<Member>, r: QuorumRow) {
    && GetCount(ms, "ship") == Ok(r.ship) && GetCount(ms, "ship_with_changes") == Ok(r.shipWithChanges)
    && GetCount(ms, "do_not_ship") == Ok(r.doNotShip) && GetCount(ms, "missing") == Ok(r.missing)
  }

  lemma ReadRowIs(ms: seq<Member>, r: QuorumRow)
    ensures ReadRow(ms) == Ok(r) <==> NamesRead(ms, r) && VerdictRead(ms, r) && CountsRead(ms, r)
  {
    hide GetStr, GetCount, ReadBool;
  }

  lemma NamesMean(ms: seq<Member>, r: QuorumRow)
    ensures NamesRead(ms, r) <==>
      && Has(ms, "kind", Str("quorum")) && Has(ms, "conv", Str(r.conv)) && Has(ms, "pin", Str(r.pin))
      && Has(ms, "council", Str(r.council)) && Has(ms, "stakes", Str(r.stakes))
      && Has(ms, "rerun_of", Str(r.rerunOf)) && Has(ms, "actor", Str(r.actor))
      && Has(ms, "warden_card", Str(r.wardenCard))
  {
    hide GetStr, Has;
    StrIs(ms, "kind");
    StrIs(ms, "conv");
    StrIs(ms, "pin");
    StrIs(ms, "council");
    StrIs(ms, "stakes");
    StrIs(ms, "rerun_of");
    StrIs(ms, "actor");
    StrIs(ms, "warden_card");
  }

  lemma VerdictMeans(ms: seq<Member>, r: QuorumRow)
    ensures VerdictRead(ms, r) <==>
      && Has(ms, "ruled", Str(r.ruled)) && Has(ms, "floor", Str(r.floor))
      && Has(ms, "degraded", Str(if r.degraded then "true" else "false"))
      && Has(ms, "verdict_digest", Str(r.digest))
  {
    hide GetStr, Has;
    StrIs(ms, "ruled");
    StrIs(ms, "floor");
    StrIs(ms, "degraded");
    StrIs(ms, "verdict_digest");
    var word := if r.degraded then "true" else "false";
    assert forall w :: ReadBool(w) == Ok(r.degraded) <==> w == word;
    assert GetStr(ms, "degraded") == Ok(word) <==> Has(ms, "degraded", Str(word));
  }

  lemma CountsMean(ms: seq<Member>, r: QuorumRow)
    ensures CountsRead(ms, r) <==>
      && HasCount(ms, "ship", r.ship) && HasCount(ms, "ship_with_changes", r.shipWithChanges)
      && HasCount(ms, "do_not_ship", r.doNotShip) && HasCount(ms, "missing", r.missing)
  {
    hide GetCount, HasCount;
    CountIs(ms, "ship");
    CountIs(ms, "ship_with_changes");
    CountIs(ms, "do_not_ship");
    CountIs(ms, "missing");
  }

  lemma ReadRowMeans(ms: seq<Member>, r: QuorumRow)
    ensures ReadRow(ms) == Ok(r) <==> SaysRow(ms, r)
  {
    ReadRowIs(ms, r);
    NamesMean(ms, r);
    VerdictMeans(ms, r);
    CountsMean(ms, r);
    hide ReadRow, NamesRead, VerdictRead, CountsRead, Has, HasCount;
  }

  lemma FieldsAre()
    ensures |FIELDS| == 16 && (forall i, j :: 0 <= i < j < 16 ==> FIELDS[i] != FIELDS[j])
    ensures forall w :: w in FIELDS <==> w in {
      "conv", "kind", "pin", "council", "stakes", "rerun_of", "actor", "warden_card", "ship",
      "ship_with_changes", "do_not_ship", "missing", "ruled", "floor", "degraded", "verdict_digest"}
  {
    FieldsDiffer();
    var f := FIELDS;
    assert f[0] == "conv" && f[1] == "kind" && f[2] == "pin" && f[3] == "council" && f[4] == "stakes";
    assert f[5] == "rerun_of" && f[6] == "actor" && f[7] == "warden_card" && f[8] == "ship";
    assert f[9] == "ship_with_changes" && f[10] == "do_not_ship" && f[11] == "missing" && f[12] == "ruled";
    assert f[13] == "floor" && f[14] == "degraded" && f[15] == "verdict_digest";
  }

  lemma SixteenMeans(ms: seq<Member>)
    ensures multiset(Keys(ms)) == multiset(FIELDS) <==> Sixteen(ms)
  {
    FieldsAre();
    hide FIELDS;
    KeysMean(ms, FIELDS);
    hide Keys;
  }

  /** A line is accepted as a row exactly when it is one object that says a coherent row. */
  lemma {:induction false} RowMeans(line: string, r: QuorumRow)
    ensures ParseRow(line) == Ok(r) <==>
      var p := Parse(line);
      p.Ok? && p.value.Obj? && Sixteen(p.value.members) && SaysRow(p.value.members, r) && Coherent(r)
  {
    hide Parse, ReadRow, SaysRow, Accepts, Coherent, Sixteen, Keys, FIELDS;
    CoherentMeans(r);
    var p := Parse(line);
    if p.Ok? && p.value.Obj? {
      SixteenMeans(p.value.members);
      ReadRowMeans(p.value.members, r);
    }
  }
}
