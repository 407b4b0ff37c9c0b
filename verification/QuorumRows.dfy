/**
 The quorum's ledger row, written and read back: `ledger_row`, `parse_ledger_row` and `parse_floor`
 of crates/caddis-deliberate/src/quorum.rs. Every refusal of the reader is a defect, so which check
 finds it first does not show.
 */
module QuorumRows {
  import opened Wrappers
  import opened Text
  import opened Json
  import opened Decimals
  import opened JsonRoundTrip
  import opened Flat
  import opened Seats
  import LedgerRow
  import opened Votes
  import S = Sessions

  const FIELDS: seq<string> := [
    "conv", "kind", "pin", "council", "stakes", "rerun_of", "actor", "warden_card", "ship",
    "ship_with_changes", "do_not_ship", "missing", "ruled", "floor", "degraded", "verdict_digest"]

  datatype QuorumRow = QuorumRow(
    conv: string, pin: string, council: string, stakes: string, rerunOf: string, actor: string, wardenCard: string,
    ship: nat, shipWithChanges: nat, doNotShip: nat, missing: nat,
    ruled: string, floor: string, degraded: bool, digest: string)

  // ---------- the row a session writes ----------

  function StakesWord(s: S.Stakes): string {
    match s
    case Small => "small"
    case Medium => "medium"
    case Complex => "complex"
  }

  function BoolWord(b: bool): string {
    if b then "true" else "false"
  }

  function FloorText(agreeing: nat, pool: nat): string {
    Dec(agreeing) + "/" + Dec(pool)
  }

  function RowOf(s: S.QuorumSession, ballot: Ballot, ruling: Ruling, digest: string): QuorumRow {
    QuorumRow(s.id, s.pin, s.council, StakesWord(s.stakes), if s.rerunOf.Some? then s.rerunOf.value else "",
      s.gate.actor, s.gate.wardenCard,
      Count(ballot.replies, Ship), Count(ballot.replies, ShipWithChanges), Count(ballot.replies, DoNotShip),
      |ballot.missing|,
      PositionWord(ruling.position), FloorText(|ruling.agreeing|, ruling.poolSize), ruling.degraded, digest)
  }

  function RowFields(r: QuorumRow): seq<(string, string)> {
    [("conv", WriteStr(r.conv)), ("kind", Word("quorum")), ("pin", WriteStr(r.pin)), ("council", WriteStr(r.council)),
     ("stakes", Word(r.stakes)), ("rerun_of", WriteStr(r.rerunOf)), ("actor", WriteStr(r.actor)),
     ("warden_card", WriteStr(r.wardenCard)), ("ship", Dec(r.ship)), ("ship_with_changes", Dec(r.shipWithChanges)),
     ("do_not_ship", Dec(r.doNotShip)), ("missing", Dec(r.missing)), ("ruled", Word(r.ruled)),
     ("floor", WriteStr(r.floor)), ("degraded", Word(BoolWord(r.degraded))), ("verdict_digest", WriteStr(r.digest))]
  }

  function RowLine(r: QuorumRow): string {
    Object(RowFields(r))
  }

  // ---------- the reader ----------

  /** A count is a double cast to `u64`. */
  ghost function GetCount(ms: seq<Member>, key: string): Result<nat, FieldErr> {
    match Get(ms, key)
    case None => Err(BadField)
    case Some(v) =>
      if !v.Num? || v.n < 0.0 || !IsWhole(v.n) then Err(BadField) else Ok(ReadCount(v.n.Floor))
  }

  function SplitOnce(s: string, c: char): (r: Option<(string, string)>)
    ensures r.Some? ==> s == r.value.0 + [c] + r.value.1 && c !in r.value.0
  {
    if s == [] then None
    else if s[0] == c then Some(([], s[1..]))
    else
      match SplitOnce(s[1..], c)
      case None => None
      case Some((a, b)) => Some(([s[0]] + a, b))
  }

  ghost function ParsePart(part: string): Option<nat> {
    if part == "" || !AllDigits(part) then None else LedgerRow.ParseU64(part)
  }

  ghost function ParseFloor(floor: string): Option<(nat, nat)> {
    match SplitOnce(floor, '/')
    case None => None
    case Some((n, m)) =>
      if ParsePart(n).Some? && ParsePart(m).Some? then Some((ParsePart(n).value, ParsePart(m).value)) else None
  }

  predicate Hex64(d: string) {
    |d| == 64 && forall i :: 0 <= i < |d| ==> '0' <= d[i] <= '9' || 'a' <= d[i] <= 'f'
  }

  function RuledCount(r: QuorumRow): Option<nat> {
    if r.ruled == "ship" then Some(r.ship)
    else if r.ruled == "ship_with_changes" then Some(r.shipWithChanges)
    else if r.ruled == "do_not_ship" then Some(r.doNotShip)
    else None
  }

  function CountsSum(r: QuorumRow): nat {
    r.ship + r.shipWithChanges + r.doNotShip + r.missing
  }

  /** The sum is a `u64` sum: it wraps where overflow is not checked. */
  ghost predicate Accepts(r: QuorumRow) {
    && RuledCount(r).Some? && ParseFloor(r.floor).Some?
    && var (agreeing, pool) := ParseFloor(r.floor).value;
      && agreeing >= 1 && pool >= 2 && agreeing >= pool / 2 + 1
      && CountsSum(r) % U64_LIMIT == pool
      && RuledCount(r).value >= agreeing
      && r.degraded == (r.missing > 0)
      && Hex64(r.digest)
  }

  function ReadBool(w: string): Result<bool, FieldErr> {
    if w == "true" then Ok(true) else if w == "false" then Ok(false) else Err(BadField)
  }

  ghost function ReadRow(ms: seq<Member>): Result<QuorumRow, FieldErr> {
    var kind :- GetStr(ms, "kind");
    var ship :- GetCount(ms, "ship");
    var shipWithChanges :- GetCount(ms, "ship_with_changes");
    var doNotShip :- GetCount(ms, "do_not_ship");
    var missing :- GetCount(ms, "missing");
    var ruled :- GetStr(ms, "ruled");
    var floor :- GetStr(ms, "floor");
    var word :- GetStr(ms, "degraded");
    var degraded :- ReadBool(word);
    var digest :- GetStr(ms, "verdict_digest");
    var conv :- GetStr(ms, "conv");
    var pin :- GetStr(ms, "pin");
    var council :- GetStr(ms, "council");
    var stakes :- GetStr(ms, "stakes");
    var rerunOf :- GetStr(ms, "rerun_of");
    var actor :- GetStr(ms, "actor");
    var wardenCard :- GetStr(ms, "warden_card");
    if kind != "quorum" then Err(BadField)
    else
      Ok(QuorumRow(conv, pin, council, stakes, rerunOf, actor, wardenCard,
        ship, shipWithChanges, doNotShip, missing, ruled, floor, degraded, digest))
  }

  /** `parse_ledger_row`. The names are compared after sorting, so as a multiset. */
  ghost function ParseRow(line: string): Result<QuorumRow, FieldErr> {
    match Parse(line)
    case Err(_) => Err(BadField)
    case Ok(v) =>
      if !v.Obj? || multiset(Keys(v.members)) != multiset(FIELDS) then Err(BadField)
      else
        var r :- ReadRow(v.members);
        if Accepts(r) then Ok(r) else Err(BadField)
  }

  // ---------- what is written is what is read ----------

  function RowMembers(r: QuorumRow): seq<Member> {
    [Member("conv", Str(r.conv)), Member("kind", Str("quorum")), Member("pin", Str(r.pin)),
     Member("council", Str(r.council)),
     Member("stakes", Str(r.stakes)), Member("rerun_of", Str(r.rerunOf)), Member("actor", Str(r.actor)),
     Member("warden_card", Str(r.wardenCard)), Member("ship", Num(Int(r.ship))),
     Member("ship_with_changes", Num(Int(r.shipWithChanges))), Member("do_not_ship", Num(Int(r.doNotShip))),
     Member("missing", Num(Int(r.missing))), Member("ruled", Str(r.ruled)), Member("floor", Str(r.floor)),
     Member("degraded", Str(BoolWord(r.degraded))), Member("verdict_digest", Str(r.digest))]
  }

  /** The words the writer does not escape need no escape, and the counts are `u64`. */
  ghost predicate Written(r: QuorumRow) {
    && Plain(r.stakes) && Plain(r.ruled)
    && r.ship < U64_LIMIT && r.shipWithChanges < U64_LIMIT && r.doNotShip < U64_LIMIT && r.missing < U64_LIMIT
  }

  lemma TextNamesPlain()
    ensures forall i :: 0 <= i < 8 ==> Plain(FIELDS[i])
    ensures Plain("quorum")
  {
  }

  lemma FigureNamesPlain()
    ensures forall i :: 8 <= i < 16 ==> Plain(FIELDS[i])
    ensures forall b :: Plain(BoolWord(b))
  {
  }

  lemma FieldsDiffer()
    ensures forall i, j :: 0 <= i < j < |FIELDS| ==> FIELDS[i] != FIELDS[j]
  {
  }

  lemma RowTexts(r: QuorumRow)
    requires Written(r)
    ensures forall i :: 0 <= i < 8 ==> Writes(RowFields(r)[i], RowMembers(r)[i])
  {
    TextNamesPlain();
    hide Plain, Dec, WriteStr, Word, Writes;
    StrField(FIELDS[0], r.conv);
    WordField(FIELDS[1], "quorum");
    StrField(FIELDS[2], r.pin);
    StrField(FIELDS[3], r.council);
    WordField(FIELDS[4], r.stakes);
    StrField(FIELDS[5], r.rerunOf);
    StrField(FIELDS[6], r.actor);
    StrField(FIELDS[7], r.wardenCard);
  }

  lemma RowCounts(r: QuorumRow)
    requires Written(r)
    ensures forall i :: 8 <= i < 16 ==> Writes(RowFields(r)[i], RowMembers(r)[i])
  {
    FigureNamesPlain();
    hide Plain, Dec, WriteStr, Word, Writes, BoolWord;
    NatField(FIELDS[8], r.ship);
    NatField(FIELDS[9], r.shipWithChanges);
    NatField(FIELDS[10], r.doNotShip);
    NatField(FIELDS[11], r.missing);
    WordField(FIELDS[12], r.ruled);
    StrField(FIELDS[13], r.floor);
    WordField(FIELDS[14], BoolWord(r.degraded));
    StrField(FIELDS[15], r.digest);
  }

  lemma RowReads(r: QuorumRow)
    requires Written(r)
    ensures Parse(RowLine(r)) == Ok(Obj(RowMembers(r))) <==> Bytes(RowLine(r)) <= MAX_BYTES
    ensures Parse(RowLine(r)).Ok? ==> Parse(RowLine(r)) == Ok(Obj(RowMembers(r)))
  {
    RowTexts(r);
    RowCounts(r);
    hide Parse, Object, Writes, Bytes, Nest, WriteValue;
    FlatRow(r);
    ObjectIsWritten(RowFields(r), RowMembers(r));
    RoundTrip(Obj(RowMembers(r)));
    TooLong(RowLine(r));
  }

  lemma FlatRow(r: QuorumRow)
    ensures Nest(Obj(RowMembers(r))) <= MAX_DEPTH
  {
    NestAtMost(RowMembers(r), 0);
  }

  lemma KeysAre(r: QuorumRow)
    ensures Keys(RowMembers(r)) == FIELDS && DistinctKeys(RowMembers(r))
  {
    FieldsDiffer();
    var ms := RowMembers(r);
    assert Keys(ms) == FIELDS;
    forall i, j | 0 <= i < j < |ms| ensures ms[i].key != ms[j].key {
      assert ms[i].key == FIELDS[i] && ms[j].key == FIELDS[j];
    }
  }

  lemma CountReads(ms: seq<Member>, i: nat, n: nat)
    requires i < |ms| && DistinctKeys(ms) && ms[i].value == Num(Int(n)) && n < U64_LIMIT
    ensures GetCount(ms, ms[i].key) == Ok(ReadCount(n))
  {
    GetAt(ms, i);
  }

  lemma RowHead(r: QuorumRow)
    ensures var ms := RowMembers(r);
      && GetStr(ms, "conv") == Ok(r.conv) && GetStr(ms, "kind") == Ok("quorum") && GetStr(ms, "pin") == Ok(r.pin)
  {
    var ms := RowMembers(r);
    KeysAre(r);
    hide GetStr, DistinctKeys, Keys, BoolWord;
    StrReads(ms, 0, r.conv);
    StrReads(ms, 1, "quorum");
    StrReads(ms, 2, r.pin);
  }

  lemma RowOrigin(r: QuorumRow)
    ensures var ms := RowMembers(r);
      && GetStr(ms, "council") == Ok(r.council) && GetStr(ms, "stakes") == Ok(r.stakes)
      && GetStr(ms, "rerun_of") == Ok(r.rerunOf)
  {
    var ms := RowMembers(r);
    KeysAre(r);
    hide GetStr, DistinctKeys, Keys, BoolWord;
    StrReads(ms, 3, r.council);
    StrReads(ms, 4, r.stakes);
    StrReads(ms, 5, r.rerunOf);
  }

  lemma RowActor(r: QuorumRow)
    ensures var ms := RowMembers(r);
      GetStr(ms, "actor") == Ok(r.actor) && GetStr(ms, "warden_card") == Ok(r.wardenCard)
  {
    var ms := RowMembers(r);
    KeysAre(r);
    hide GetStr, DistinctKeys, Keys, BoolWord;
    StrReads(ms, 6, r.actor);
    StrReads(ms, 7, r.wardenCard);
  }

  lemma RowRuling(r: QuorumRow)
    ensures var ms := RowMembers(r);
      && GetStr(ms, "ruled") == Ok(r.ruled) && GetStr(ms, "floor") == Ok(r.floor)
      && GetStr(ms, "degraded") == Ok(BoolWord(r.degraded)) && GetStr(ms, "verdict_digest") == Ok(r.digest)
  {
    var ms := RowMembers(r);
    KeysAre(r);
    hide GetStr, DistinctKeys, Keys, BoolWord;
    StrReads(ms, 12, r.ruled);
    StrReads(ms, 13, r.floor);
    StrReads(ms, 14, BoolWord(r.degraded));
    StrReads(ms, 15, r.digest);
  }

  /** The row with its counts as a reader gets them. */
  function AsRead(r: QuorumRow): QuorumRow {
    r.(ship := ReadCount(r.ship), shipWithChanges := ReadCount(r.shipWithChanges),
       doNotShip := ReadCount(r.doNotShip), missing := ReadCount(r.missing))
  }

  predicate CountsHeld(r: QuorumRow) {
    Held(r.ship) && Held(r.shipWithChanges) && Held(r.doNotShip) && Held(r.missing)
  }

  lemma HeldAreRead(r: QuorumRow)
    requires Written(r)
    ensures AsRead(r) == r <==> CountsHeld(r)
  {
    CountKept(r.ship);
    CountKept(r.shipWithChanges);
    CountKept(r.doNotShip);
    CountKept(r.missing);
    hide ReadCount, Held, Plain;
  }

  lemma RowFigures(r: QuorumRow)
    requires Written(r)
    ensures var ms := RowMembers(r);
      && GetCount(ms, "ship") == Ok(ReadCount(r.ship))
      && GetCount(ms, "ship_with_changes") == Ok(ReadCount(r.shipWithChanges))
      && GetCount(ms, "do_not_ship") == Ok(ReadCount(r.doNotShip))
      && GetCount(ms, "missing") == Ok(ReadCount(r.missing))
  {
    var ms := RowMembers(r);
    KeysAre(r);
    hide GetCount, DistinctKeys, Keys, BoolWord, Plain, ReadCount;
    CountReads(ms, 8, r.ship);
    CountReads(ms, 9, r.shipWithChanges);
    CountReads(ms, 10, r.doNotShip);
    CountReads(ms, 11, r.missing);
  }

  lemma RowMembersRead(r: QuorumRow)
    requires Written(r)
    ensures ReadRow(RowMembers(r)) == Ok(AsRead(r))
  {
    assert ReadBool(BoolWord(r.degraded)) == Ok(r.degraded);
    RowHead(r);
    RowOrigin(r);
    RowActor(r);
    RowRuling(r);
    RowFigures(r);
    hide GetStr, GetCount, RowMembers, BoolWord, ReadBool, Plain, Written, ReadCount;
  }

  /**
   A written row is accepted, with the same fields, exactly when it fits the cap, its figures agree, and
   a double holds each of its counts.
   */
  lemma {:induction false} RowRoundTrip(r: QuorumRow)
    requires Written(r)
    ensures ParseRow(RowLine(r)) == Ok(r) <==> Bytes(RowLine(r)) <= MAX_BYTES && Accepts(r) && CountsHeld(r)
    ensures ParseRow(RowLine(r)).Ok? ==> ParseRow(RowLine(r)) == Ok(AsRead(r))
  {
    hide *;
    HeldAreRead(r);
    RowReads(r);
    KeysAre(r);
    RowMembersRead(r);
    ParsedRow(RowLine(r), RowMembers(r), AsRead(r));
  }

  lemma ParsedRow(line: string, ms: seq<Member>, r: QuorumRow)
    requires Keys(ms) == FIELDS && ReadRow(ms) == Ok(r)
    ensures Parse(line) == Ok(Obj(ms)) ==> ParseRow(line) == if Accepts(r) then Ok(r) else Err(BadField)
    ensures Parse(line).Err? ==> ParseRow(line) == Err(BadField)
  {
    hide Parse, Accepts, ReadRow, Keys;
  }

  // ---------- rows of decided sessions ----------

  lemma {:induction false} SplitAt(a: string, b: string, c: char)
    requires c !in a
    ensures SplitOnce(a + [c] + b, c) == Some((a, b))
  {
    var s := a + [c] + b;
    if a == [] {
      assert s[1..] == b;
    } else {
      assert s[1..] == a[1..] + [c] + b;
      SplitAt(a[1..], b, c);
      assert [a[0]] + a[1..] == a;
    }
  }

  lemma {:induction false} FloorReads(agreeing: nat, pool: nat)
    requires agreeing < U64_LIMIT && pool < U64_LIMIT
    ensures ParseFloor(FloorText(agreeing, pool)) == Some((agreeing, pool))
  {
    SplitAt(Dec(agreeing), Dec(pool), '/');
    assert "/" == ['/'];
  }

  lemma WordsPlain(s: S.Stakes, p: Position)
    ensures Plain(StakesWord(s)) && Plain(PositionWord(p))
  {
  }

  lemma WordCounts(r: QuorumRow, p: Position, replies: seq<Reply>)
    requires r.ruled == PositionWord(p)
    requires r.ship == Count(replies, Ship) && r.shipWithChanges == Count(replies, ShipWithChanges)
      && r.doNotShip == Count(replies, DoNotShip)
    ensures RuledCount(r) == Some(Count(replies, p))
  {
  }

  /** Figures that agree without overflow are accepted. */
  lemma FiguresAgree(r: QuorumRow, agreeing: nat, pool: nat)
    requires RuledCount(r) == Some(agreeing) && r.floor == FloorText(agreeing, pool)
    requires 2 <= pool < U64_LIMIT && DecisionFloor(pool) <= agreeing <= pool && CountsSum(r) == pool
    requires r.degraded == (r.missing > 0) && Hex64(r.digest)
    ensures Accepts(r)
  {
    hide ParseFloor, FloorText, Hex64, RuledCount;
    FloorReads(agreeing, pool);
  }

  /**
   The row of every collected and decided session is accepted by the reader with the same fields,
   unless its strings alone push it past the reader's 8 MiB, or a count is one no double holds, which
   takes a pool of 2^53 seats.
   */
  lemma {:induction false} SessionRowAccepted(s: S.QuorumSession, replies: seq<Reply>, digest: string)
    requires DistinctLanes(s.pool) && 2 <= |s.pool| < U64_LIMIT && Hex64(digest)
    requires Collect(s.pool, replies).Ok? && Decide(|s.pool|, Collect(s.pool, replies).value).Ok?
    ensures var ballot := Collect(s.pool, replies).value;
      var r := RowOf(s, ballot, Decide(|s.pool|, ballot).value, digest);
      && (ParseRow(RowLine(r)) == Ok(r) <==> Bytes(RowLine(r)) <= MAX_BYTES && CountsHeld(r))
      && (|s.pool| < TWO_53 ==> CountsHeld(r))
      && CountsSum(r) == |s.pool| && Written(r)
  {
    hide Collect, Decide, Count, Hex64, RowOf, RowLine, ParseRow, Bytes, DistinctLanes, Accepts, Written, Gather;
    hide CountsHeld;
    var ballot := Collect(s.pool, replies).value;
    var ruling := Decide(|s.pool|, ballot).value;
    RulingFigures(|s.pool|, ballot);
    BallotAccountsForPool(s.pool, replies);
    RulingIsMajority(s.pool, replies, ruling.position);
    CollectedReplies(s.pool, replies);
    FiguresOf(s, ballot, ruling, digest);
    RowRoundTrip(RowOf(s, ballot, ruling, digest));
    SmallHeld(RowOf(s, ballot, ruling, digest));
  }

  lemma SmallHeld(r: QuorumRow)
    ensures CountsSum(r) < TWO_53 ==> CountsHeld(r)
  {
  }

  lemma CollectedReplies(pool: seq<Seat>, replies: seq<Reply>)
    requires Collect(pool, replies).Ok?
    ensures Collect(pool, replies).value.replies == Gather(pool, replies)
  {
  }

  /** The row of a ballot that accounts for its pool and a ruling that is a majority of it. */
  lemma FiguresOf(s: S.QuorumSession, ballot: Ballot, ruling: Ruling, digest: string)
    requires 2 <= |s.pool| < U64_LIMIT && Hex64(digest)
    requires Count(ballot.replies, Ship) + Count(ballot.replies, ShipWithChanges) + Count(ballot.replies, DoNotShip)
      + |ballot.missing| == |s.pool|
    requires |ruling.agreeing| == Count(ballot.replies, ruling.position) >= DecisionFloor(|s.pool|)
    requires ruling.poolSize == |s.pool| && ruling.degraded == (|ballot.missing| > 0)
    ensures var r := RowOf(s, ballot, ruling, digest); Written(r) && Accepts(r) && CountsSum(r) == |s.pool|
  {
    hide Count, Hex64, PositionWord, StakesWord, FloorText, Plain, RuledCount, Accepts;
    var r := RowOf(s, ballot, ruling, digest);
    WordsPlain(s.stakes, ruling.position);
    WordCounts(r, ruling.position, ballot.replies);
    assert ruling.position.Ship? || ruling.position.ShipWithChanges? || ruling.position.DoNotShip?;
    FiguresAgree(r, |ruling.agreeing|, |s.pool|);
  }

  lemma RulingFigures(poolSize: nat, ballot: Ballot)
    requires Decide(poolSize, ballot).Ok?
    ensures var ruling := Decide(poolSize, ballot).value;
      ruling.poolSize == poolSize && ruling.degraded == (|ballot.missing| > 0) && |ruling.agreeing| >= ruling.floor
  {
    hide Integrate;
  }

  // ---------- what any accepted row says ----------

  /**
   Whoever wrote it, an accepted row's ruled position holds a strict majority of the pool it names,
   degraded is exactly missing-ness, and the counts and the missing add up to the pool if and only if
   their sum does not pass the range of `u64`.
   */
  lemma {:induction false} AcceptedRowLaw(line: string)
    requires ParseRow(line).Ok?
    ensures var r := ParseRow(line).value;
      && ParseFloor(r.floor).Some? && RuledCount(r).Some?
      && var (agreeing, pool) := ParseFloor(r.floor).value;
        && pool >= 2 && RuledCount(r).value >= agreeing && 2 * agreeing > pool
        && r.degraded == (r.missing > 0) && Hex64(r.digest)
        && (CountsSum(r) == pool <==> CountsSum(r) < U64_LIMIT)
  {
    hide ParseRow, ParseFloor, Hex64, RuledCount, Accepts, CountsSum;
    AcceptedMeans(line);
    AcceptsLaw(ParseRow(line).value);
  }

  lemma WrapLaw(sum: nat, pool: nat)
    requires pool < U64_LIMIT && sum % U64_LIMIT == pool
    ensures sum == pool <==> sum < U64_LIMIT
  {
  }

  lemma AcceptsLaw(r: QuorumRow)
    requires Accepts(r)
    ensures ParseFloor(r.floor).Some? && RuledCount(r).Some?
    ensures var (agreeing, pool) := ParseFloor(r.floor).value;
      && pool >= 2 && RuledCount(r).value >= agreeing && 2 * agreeing > pool
      && r.degraded == (r.missing > 0) && Hex64(r.digest)
      && (CountsSum(r) == pool <==> CountsSum(r) < U64_LIMIT)
  {
    hide ParseFloor, Hex64, RuledCount, CountsSum;
    PartsInRange(r.floor);
    WrapLaw(CountsSum(r), ParseFloor(r.floor).value.1);
  }

  lemma AcceptedMeans(line: string)
    requires ParseRow(line).Ok?
    ensures Accepts(ParseRow(line).value)
  {
    hide Parse, ReadRow, Accepts, Keys;
  }

  lemma PartsInRange(floor: string)
    requires ParseFloor(floor).Some?
    ensures ParseFloor(floor).value.0 < U64_LIMIT && ParseFloor(floor).value.1 < U64_LIMIT
  {
  }

  const TWO_63: nat := 0x8000_0000_0000_0000

  function Zeros(n: nat): (s: string)
    ensures |s| == n && forall i :: 0 <= i < n ==> s[i] == '0'
  {
    if n == 0 then [] else ['0'] + Zeros(n - 1)
  }

  /** Two counts of 2^63 beside two missing seats: 2^64 + 2, which a pool of two accepts. */
  function Wrapped(): QuorumRow {
    QuorumRow("c", "p", "k", "small", "", "a", "w", TWO_63, TWO_63, 0, 2, "ship", FloorText(2, 2), true, Zeros(64))
  }

  lemma ShortField(key: string, s: string)
    requires |key| <= 30 && |s| <= 64
    ensures AtMost((key, WriteStr(s)), 500) && AtMost((key, Word(s)), 500)
  {
    EscapedBound(s);
  }

  lemma ShortNat(key: string, n: nat)
    requires |key| <= 30 && n < U64_LIMIT
    ensures AtMost((key, Dec(n)), 500)
  {
    U64Digits(n);
  }

  ghost predicate Short(r: QuorumRow) {
    && |r.conv| <= 64 && |r.pin| <= 64 && |r.council| <= 64 && |r.rerunOf| <= 64 && |r.actor| <= 64
    && |r.wardenCard| <= 64 && |r.floor| <= 64 && |r.digest| <= 64 && |r.stakes| <= 64 && |r.ruled| <= 64
  }

  lemma ShortTexts(r: QuorumRow)
    requires Short(r)
    ensures forall i :: 0 <= i < 8 ==> AtMost(RowFields(r)[i], 500)
  {
    FieldsShort();
    hide Dec, WriteStr, BoolWord, Word, AtMost;
    ShortField(FIELDS[0], r.conv);
    ShortField(FIELDS[1], "quorum");
    ShortField(FIELDS[2], r.pin);
    ShortField(FIELDS[3], r.council);
    ShortField(FIELDS[4], r.stakes);
    ShortField(FIELDS[5], r.rerunOf);
    ShortField(FIELDS[6], r.actor);
    ShortField(FIELDS[7], r.wardenCard);
  }

  lemma ShortFigures(r: QuorumRow)
    requires Written(r)
    ensures forall i :: 8 <= i < 12 ==> AtMost(RowFields(r)[i], 500)
  {
    FieldsShort();
    hide Dec, WriteStr, BoolWord, Plain, Word, AtMost;
    ShortNat(FIELDS[8], r.ship);
    ShortNat(FIELDS[9], r.shipWithChanges);
    ShortNat(FIELDS[10], r.doNotShip);
    ShortNat(FIELDS[11], r.missing);
  }

  lemma ShortRuling(r: QuorumRow)
    requires Short(r)
    ensures forall i :: 12 <= i < 16 ==> AtMost(RowFields(r)[i], 500)
  {
    FieldsShort();
    assert |BoolWord(r.degraded)| <= 5;
    hide Dec, WriteStr, BoolWord, Plain, Word, AtMost;
    ShortField(FIELDS[12], r.ruled);
    ShortField(FIELDS[13], r.floor);
    ShortField(FIELDS[14], BoolWord(r.degraded));
    ShortField(FIELDS[15], r.digest);
  }

  lemma ShortCounts(r: QuorumRow)
    requires Short(r) && Written(r)
    ensures forall i :: 8 <= i < 16 ==> AtMost(RowFields(r)[i], 500)
  {
    hide RowFields, AtMost, Short, Written;
    ShortFigures(r);
    ShortRuling(r);
  }

  lemma FieldsShort()
    ensures forall i :: 0 <= i < |FIELDS| ==> |FIELDS[i]| <= 30
  {
  }

  lemma HalfHeld()
    ensures Held(TWO_63) && Held(0) && Held(2)
  {
    assert Ulp(0x40_0000_0000_0000) == 4;
    assert Ulp(0x200_0000_0000_0000) == 32;
    assert Ulp(0x1000_0000_0000_0000) == 256;
    assert Ulp(TWO_63) == 2048;
    assert TWO_63 == 2048 * 0x10_0000_0000_0000;
  }

  lemma WrappedFigures()
    ensures Written(Wrapped()) && Accepts(Wrapped()) && CountsHeld(Wrapped())
    ensures |Wrapped().floor| <= 41 && CountsSum(Wrapped()) == U64_LIMIT + 2
    ensures ParseFloor(Wrapped().floor) == Some((2, 2))
  {
    U64Digits(2);
    FloorReads(2, 2);
    HalfHeld();
    hide ParseFloor, Dec, Ulp;
    var r := Wrapped();
    assert RuledCount(r) == Some(TWO_63);
    assert CountsSum(r) % U64_LIMIT == 2;
    assert Hex64(r.digest);
  }

  /** The overflow is real: this row is accepted although its counts exceed its pool of two. */
  lemma {:induction false} WrappedRowAccepted()
    ensures ParseRow(RowLine(Wrapped())) == Ok(Wrapped())
    ensures CountsSum(Wrapped()) == U64_LIMIT + 2 && ParseFloor(Wrapped().floor) == Some((2, 2))
  {
    WrappedFigures();
    var r := Wrapped();
    hide ParseRow, Bytes, ParseFloor, FloorText, Accepts, Written, RowFields, CountsSum, CountsHeld;
    ShortTexts(r);
    ShortCounts(r);
    SixteenFields(r);
    RowRoundTrip(r);
    PairsLength(RowFields(r), 500);
    hide Pairs;
    BytesBound(RowLine(r));
  }

  lemma SixteenFields(r: QuorumRow)
    ensures |RowFields(r)| == 16
  {
  }
}
