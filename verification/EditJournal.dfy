/**
 The edit journal: its rows written and parsed, the next number, and the fold into proposals.
 crates/caddis-deliberate/src/edits.rs. Defects carry no message here.
 */
module EditJournal {
  import opened Wrappers
  import opened Text
  import opened Json
  import opened Decimals
  import opened JsonRoundTrip
  import opened Flat
  import opened Cards
  import opened CardStream

  // ---------- rows ----------

  datatype Resolution = Confirm | Refuse

  datatype Row =
    | Proposed(seqNo: nat, id: string, card: Card, prior16: string, actor: string, actorKind: string)
    | Resolved(seqNo: nat, id: string, resolution: Resolution, actor: string, actorKind: string)

  /** What a verb appends, before the number is known. */
  datatype Draft =
    | Proposal(card: Card, prior16: string, actor: string, actorKind: string)
    | Resolve(id: string, resolution: Resolution, actor: string, actorKind: string)

  function IdOf(seqNo: nat): string {
    "e" + Dec(seqNo)
  }

  function OpWord(c: Card): string {
    if c.Seat? then "upsert-seat" else "upsert-provider"
  }

  function ResolutionWord(r: Resolution): string {
    if r.Confirm? then "confirm" else "refuse"
  }

  function RowOf(d: Draft, seqNo: nat): Row {
    match d
    case Proposal(card, prior16, actor, actorKind) => Proposed(seqNo, IdOf(seqNo), card, prior16, actor, actorKind)
    case Resolve(id, resolution, actor, actorKind) => Resolved(seqNo, id, resolution, actor, actorKind)
  }

  function RowFields(r: Row): seq<(string, string)> {
    match r
    case Proposed(seqNo, id, card, prior16, actor, actorKind) =>
      [("seq", Dec(seqNo)), ("kind", Word("propose")), ("proposal_id", WriteStr(id)), ("op", WriteStr(OpWord(card))),
       ("prior16", WriteStr(prior16)), ("actor", WriteStr(actor)), ("actor_kind", WriteStr(actorKind)),
       ("card", WriteStr(EncodeCard(card)))]
    case Resolved(seqNo, id, resolution, actor, actorKind) =>
      [("seq", Dec(seqNo)), ("kind", Word(ResolutionWord(resolution))), ("proposal_id", WriteStr(id)),
       ("actor", WriteStr(actor)), ("actor_kind", WriteStr(actorKind))]
  }

  /** `propose_line` and `resolve_line`, without the line feed. */
  function RowText(r: Row): string {
    Object(RowFields(r))
  }

  // ---------- parsing ----------

  const PROPOSE_FIELDS: seq<string> := ["seq", "kind", "proposal_id", "op", "prior16", "actor", "actor_kind", "card"]
  const RESOLVE_FIELDS: seq<string> := ["seq", "kind", "proposal_id", "actor", "actor_kind"]

  const MAX_SEQ: nat := 9_000_000_000_000_000

  predicate Hex16(s: string) {
    |s| == 16 && forall i :: 0 <= i < |s| ==> '0' <= s[i] <= '9' || 'a' <= s[i] <= 'f'
  }

  function GetSeq(ms: seq<Member>): Result<nat, FieldErr> {
    match Get(ms, "seq")
    case None => Err(BadField)
    case Some(v) =>
      if v.Num? && v.n >= 1.0 && IsWhole(v.n) && v.n <= MAX_SEQ as real then Ok(v.n.Floor) else Err(BadField)
  }

  function ParsePropose(ms: seq<Member>, seqNo: nat, id: string, actor: string, actorKind: string)
    : Result<Row, FieldErr>
  {
    var op :- GetStr(ms, "op");
    var prior16 :- GetStr(ms, "prior16");
    if !Hex16(prior16) || id != IdOf(seqNo) then Err(BadField)
    else
      var text :- GetStr(ms, "card");
      match ParseStream(text)
      case Err(_) => Err(BadField)
      case Ok(cards) =>
        if |cards| != 1 || op != OpWord(cards[0]) then Err(BadField)
        else Ok(Proposed(seqNo, id, cards[0], prior16, actor, actorKind))
  }

  /** The fields every row has. */
  function ParseFields(ms: seq<Member>, kind: string): Result<Row, FieldErr> {
    var seqNo :- GetSeq(ms);
    var id :- NonEmpty(ms, "proposal_id");
    var actor :- NonEmpty(ms, "actor");
    var actorKind :- NonEmpty(ms, "actor_kind");
    if kind == "propose" then ParsePropose(ms, seqNo, id, actor, actorKind)
    else Ok(Resolved(seqNo, id, if kind == "confirm" then Confirm else Refuse, actor, actorKind))
  }

  function ParseRow(t: string): Result<Row, FieldErr> {
    match Parse(t)
    case Err(_) => Err(BadField)
    case Ok(v) =>
      if !v.Obj? then Err(BadField)
      else
        var kind :- GetStr(v.members, "kind");
        if kind != "propose" && kind != "confirm" && kind != "refuse" then Err(BadField)
        else
          var want := if kind == "propose" then PROPOSE_FIELDS else RESOLVE_FIELDS;
          if multiset(Keys(v.members)) != multiset(want) then Err(BadField)
          else ParseFields(v.members, kind)
  }

  /** The parsed rows and how many lines were none. */
  datatype Journal = Journal(rows: seq<Row>, unparseable: nat)

  function ParseLinesOf(lines: seq<string>): Journal
    decreases |lines|
  {
    if lines == [] then Journal([], 0)
    else
      var j, t := ParseLinesOf(lines[..|lines| - 1]), Trim(lines[|lines| - 1]);
      if t == "" then j
      else
        match ParseRow(t)
        case Ok(row) => j.(rows := j.rows + [row])
        case Err(_) => j.(unparseable := j.unparseable + 1)
  }

  function ParseJournal(text: string): Journal {
    ParseLinesOf(Lines(text))
  }

  // ---------- what is written is what is read ----------

  function RowMembers(r: Row): seq<Member> {
    match r
    case Proposed(seqNo, id, card, prior16, actor, actorKind) =>
      [Member("seq", Num(Int(seqNo))), Member("kind", Str("propose")), Member("proposal_id", Str(id)),
       Member("op", Str(OpWord(card))), Member("prior16", Str(prior16)), Member("actor", Str(actor)),
       Member("actor_kind", Str(actorKind)), Member("card", Str(EncodeCard(card)))]
    case Resolved(seqNo, id, resolution, actor, actorKind) =>
      [Member("seq", Num(Int(seqNo))), Member("kind", Str(ResolutionWord(resolution))), Member("proposal_id", Str(id)),
       Member("actor", Str(actor)), Member("actor_kind", Str(actorKind))]
  }

  lemma FieldNames()
    ensures forall i :: 0 <= i < |PROPOSE_FIELDS| ==> Plain(PROPOSE_FIELDS[i])
    ensures forall i :: 0 <= i < |RESOLVE_FIELDS| ==> Plain(RESOLVE_FIELDS[i])
  {
  }

  lemma KindWords()
    ensures Plain("propose") && forall r :: Plain(ResolutionWord(r))
  {
  }

  lemma FieldNamesDiffer()
    ensures forall i, j :: 0 <= i < j < |PROPOSE_FIELDS| ==> PROPOSE_FIELDS[i] != PROPOSE_FIELDS[j]
    ensures forall i, j :: 0 <= i < j < |RESOLVE_FIELDS| ==> RESOLVE_FIELDS[i] != RESOLVE_FIELDS[j]
  {
  }

  lemma RowWritten(r: Row)
    ensures WritesAll(RowFields(r), RowMembers(r))
  {
    FieldNames();
    KindWords();
    hide Plain, Dec, WriteStr, Word, Writes, EncodeCard, OpWord, ResolutionWord;
    match r
    case Proposed(seqNo, id, card, prior16, actor, actorKind) =>
      var f := PROPOSE_FIELDS;
      NatField(f[0], seqNo);
      WordField(f[1], "propose");
      StrField(f[2], id);
      StrField(f[3], OpWord(card));
      StrField(f[4], prior16);
      StrField(f[5], actor);
      StrField(f[6], actorKind);
      StrField(f[7], EncodeCard(card));
    case Resolved(seqNo, id, resolution, actor, actorKind) =>
      var f := RESOLVE_FIELDS;
      NatField(f[0], seqNo);
      WordField(f[1], ResolutionWord(resolution));
      StrField(f[2], id);
      StrField(f[3], actor);
      StrField(f[4], actorKind);
  }

  lemma RowIsWritten(r: Row)
    ensures RowText(r) == WriteValue(Obj(RowMembers(r)))
    ensures Nest(Obj(RowMembers(r))) <= 1
  {
    NestAtMost(RowMembers(r), 0);
    RowWritten(r);
    hide Writes, WriteValue, Object, Nest;
    ObjectIsWritten(RowFields(r), RowMembers(r));
  }

  lemma RowKeys(r: Row)
    ensures DistinctKeys(RowMembers(r))
    ensures Keys(RowMembers(r)) == if r.Proposed? then PROPOSE_FIELDS else RESOLVE_FIELDS
  {
    FieldNamesDiffer();
    hide EncodeCard, OpWord, ResolutionWord;
    var ms := RowMembers(r);
    var want := if r.Proposed? then PROPOSE_FIELDS else RESOLVE_FIELDS;
    assert |ms| == |want|;
    forall i | 0 <= i < |ms| ensures ms[i].key == want[i] {
    }
    assert Keys(ms) == want;
  }

  /** `self_validate`: the card's own line reads back as that one card. */
  predicate SelfValid(c: Card) {
    ParseStream(EncodeCard(c)) == Ok([c])
  }

  /** What the verbs make sure of before a row is written. */
  predicate Sound(r: Row) {
    && r.id != "" && r.actor != "" && r.actorKind != "" && r.seqNo >= 1
    && (r.Proposed? ==> SelfValid(r.card) && Hex16(r.prior16) && r.id == IdOf(r.seqNo))
  }

  lemma SeqReads(ms: seq<Member>, n: nat)
    requires ms != [] && DistinctKeys(ms) && ms[0] == Member("seq", Num(Int(n))) && n >= 1
    ensures GetSeq(ms) == if n <= MAX_SEQ then Ok(n) else Err(BadField)
  {
    GetAt(ms, 0);
  }

  function KindOf(r: Row): string {
    if r.Proposed? then "propose" else ResolutionWord(r.resolution)
  }

  lemma CardReads(r: Row)
    requires Sound(r) && r.Proposed?
    ensures ParsePropose(RowMembers(r), r.seqNo, r.id, r.actor, r.actorKind) == Ok(r)
  {
    var ms := RowMembers(r);
    RowKeys(r);
    hide GetStr, DistinctKeys, ParseStream, EncodeCard, Hex16, IdOf, OpWord, Keys;
    StrReads(ms, 3, OpWord(r.card));
    StrReads(ms, 4, r.prior16);
    StrReads(ms, 7, EncodeCard(r.card));
    assert [r.card][0] == r.card;
  }

  lemma ProposedReads(r: Row)
    requires Sound(r) && r.Proposed?
    ensures GetStr(RowMembers(r), "kind") == Ok("propose")
    ensures ParseFields(RowMembers(r), "propose") == if r.seqNo <= MAX_SEQ then Ok(r) else Err(BadField)
  {
    var ms := RowMembers(r);
    RowKeys(r);
    CardReads(r);
    SeqReads(ms, r.seqNo);
    hide GetStr, GetSeq, DistinctKeys, NonEmpty, ParsePropose, EncodeCard, IdOf, OpWord, Keys;
    StrReads(ms, 1, "propose");
    NonEmptyReads(ms, 2, r.id);
    NonEmptyReads(ms, 5, r.actor);
    NonEmptyReads(ms, 6, r.actorKind);
  }

  lemma ResolvedReads(r: Row)
    requires Sound(r) && r.Resolved?
    ensures GetStr(RowMembers(r), "kind") == Ok(KindOf(r))
    ensures ParseFields(RowMembers(r), KindOf(r)) == if r.seqNo <= MAX_SEQ then Ok(r) else Err(BadField)
  {
    var ms := RowMembers(r);
    RowKeys(r);
    SeqReads(ms, r.seqNo);
    hide GetStr, GetSeq, DistinctKeys, NonEmpty, ParsePropose, Keys;
    StrReads(ms, 1, KindOf(r));
    NonEmptyReads(ms, 2, r.id);
    NonEmptyReads(ms, 3, r.actor);
    NonEmptyReads(ms, 4, r.actorKind);
  }

  lemma MembersRead(r: Row)
    requires Sound(r)
    ensures GetStr(RowMembers(r), "kind") == Ok(KindOf(r))
    ensures ParseFields(RowMembers(r), KindOf(r)) == if r.seqNo <= MAX_SEQ then Ok(r) else Err(BadField)
  {
    hide RowMembers, GetStr, ParseFields, Sound, ResolutionWord;
    if r.Proposed? {
      ProposedReads(r);
    } else {
      ResolvedReads(r);
    }
  }

  const ROW_CAP := 4096

  /** A row the verbs write within the cap parses back to itself, up to the largest number the parser takes. */
  lemma {:induction false} RowReadsBack(r: Row)
    requires Sound(r) && Bytes(RowText(r) + "\n") <= ROW_CAP
    ensures ParseRow(RowText(r)) == if r.seqNo <= MAX_SEQ then Ok(r) else Err(BadField)
  {
    hide Parse, Bytes, RowText, RowMembers, ParseFields, Sound, WriteValue, Nest, GetStr, Keys;
    RowIsWritten(r);
    MembersRead(r);
    RowKeys(r);
    BytesAppend(RowText(r), "\n");
    RoundTrip(Obj(RowMembers(r)));
  }

  lemma RowLine(r: Row)
    ensures Lines(RowText(r) + "\n") == [RowText(r)] && Trim(RowText(r)) == RowText(r) != ""
  {
    hide Pairs, RowFields, RowMembers, WriteMembers, WriteValue, Nest, Trim;
    RowIsWritten(r);
    WrittenPrintable(Obj(RowMembers(r)));
    OneLine(RowText(r));
    TrimBraced(RowText(r));
  }

  /** Appending a row to a journal that ends a line adds that row, or one line that does not parse. */
  lemma {:induction false} AppendedRow(text: string, r: Row)
    requires Terminated(text) && Sound(r) && Bytes(RowText(r) + "\n") <= ROW_CAP
    ensures var j, t := ParseJournal(text), text + (RowText(r) + "\n");
      && Terminated(t)
      && ParseJournal(t) == if r.seqNo <= MAX_SEQ then j.(rows := j.rows + [r])
               else j.(unparseable := j.unparseable + 1)
  {
    hide Lines, RowText, ParseRow, Trim, Bytes, Sound;
    var line := RowText(r) + "\n";
    assert (text + line)[|text + line| - 1] == '\n';
    LinesAppend(text, line);
    RowLine(r);
    RowReadsBack(r);
    var lines := Lines(text) + [RowText(r)];
    assert lines[..|lines| - 1] == Lines(text);
  }

  // ---------- the fold ----------

  datatype Status = Pending | Confirmed | Refused

  datatype Entry = Entry(seqNo: nat, card: Card, prior16: string, actor: string, actorKind: string,
    status: Status, resolvedBy: Option<string>)

  type Proposals = map<string, Entry>

  /** One row of `fold_journal`; `None` is a defect. */
  function Apply(m: Proposals, r: Row): Option<Proposals> {
    match r
    case Proposed(seqNo, id, card, prior16, actor, actorKind) =>
      if id in m then None else Some(m[id := Entry(seqNo, card, prior16, actor, actorKind, Pending, None)])
    case Resolved(_, id, resolution, actor, _) =>
      if id !in m || m[id].status != Pending then None
      else Some(m[id := m[id].(status := if resolution.Confirm? then Confirmed else Refused,
        resolvedBy := Some(actor))])
  }

  function Fold(rows: seq<Row>): Option<Proposals>
    decreases |rows|
  {
    if rows == [] then Some(map[])
    else
      match Fold(rows[..|rows| - 1])
      case None => None
      case Some(m) => Apply(m, rows[|rows| - 1])
  }

  /** `fold_journal`, as the loop over the map it updates. */
  method FoldJournal(rows: seq<Row>) returns (r: Option<Proposals>)
    ensures r == Fold(rows)
  {
    var m: Proposals := map[];
    for i := 0 to |rows|
      invariant Fold(rows[..i]) == Some(m)
    {
      assert rows[..i + 1][..i] == rows[..i];
      match rows[i] {
        case Proposed(seqNo, id, card, prior16, actor, actorKind) =>
          if id in m {
            FoldFails(rows, i);
            return None;
          }
          m := m[id := Entry(seqNo, card, prior16, actor, actorKind, Pending, None)];
        case Resolved(_, id, resolution, actor, _) =>
          if id !in m || m[id].status != Pending {
            FoldFails(rows, i);
            return None;
          }
          m := m[id := m[id].(status := if resolution.Confirm? then Confirmed else Refused, resolvedBy := Some(actor))];
      }
    }
    assert rows[..|rows|] == rows;
    r := Some(m);
  }

  lemma {:induction false} FoldFails(rows: seq<Row>, i: nat)
    requires i < |rows| && Fold(rows[..i + 1]).None?
    ensures Fold(rows).None?
    decreases |rows|
  {
    if i + 1 < |rows| {
      var front := rows[..|rows| - 1];
      assert front[..i + 1] == rows[..i + 1];
      FoldFails(front, i);
    } else {
      assert rows[..i + 1] == rows;
    }
  }

  function MaxSeq(rows: seq<Row>): (hi: nat)
    ensures forall r :: r in rows ==> r.seqNo <= hi
    decreases |rows|
  {
    if rows == [] then 0
    else
      assert rows == rows[..|rows| - 1] + [rows[|rows| - 1]];
      var hi, last := MaxSeq(rows[..|rows| - 1]), rows[|rows| - 1].seqNo;
      if last > hi then last else hi
  }

  /** Every proposal is filed under the id its own number spells, which is at most `hi`. */
  ghost predicate Filed(m: Proposals, hi: nat) {
    forall id :: id in m ==> id == IdOf(m[id].seqNo) && m[id].seqNo <= hi
  }

  lemma ApplyFiled(m: Proposals, hi: nat, r: Row, top: nat)
    requires Filed(m, hi) && hi <= top && r.seqNo <= top && WellParsed(r)
    ensures Apply(m, r).Some? ==> Filed(Apply(m, r).value, top)
  {
    hide IdOf;
  }

  lemma {:induction false} FoldedIds(rows: seq<Row>)
    requires Fold(rows).Some? && forall r :: r in rows ==> WellParsed(r)
    ensures Filed(Fold(rows).value, MaxSeq(rows))
    decreases |rows|
  {
    if rows != [] {
      var front, last := rows[..|rows| - 1], rows[|rows| - 1];
      assert rows == front + [last] && last in rows;
      hide WellParsed, Filed, Apply;
      FoldedIds(front);
      ApplyFiled(Fold(front).value, MaxSeq(front), last, MaxSeq(rows));
    }
  }

  lemma IdsDiffer(m: nat, n: nat)
    requires m != n
    ensures IdOf(m) != IdOf(n)
  {
    assert IdOf(m)[1..] == Dec(m) && IdOf(n)[1..] == Dec(n);
    assert DecValue(Dec(m)) == m && DecValue(Dec(n)) == n;
  }

  /** So the next number names a new proposal. */
  lemma {:induction false} NextIdIsNew(rows: seq<Row>)
    requires Fold(rows).Some? && forall r :: r in rows ==> WellParsed(r)
    ensures IdOf(MaxSeq(rows) + 1) !in Fold(rows).value
  {
    FoldedIds(rows);
    forall id | id in Fold(rows).value ensures id != IdOf(MaxSeq(rows) + 1) {
      IdsDiffer(Fold(rows).value[id].seqNo, MaxSeq(rows) + 1);
    }
  }

  /** A parsed propose row has the id its number spells. */
  ghost predicate WellParsed(r: Row) {
    r.Proposed? ==> r.id == IdOf(r.seqNo)
  }

  lemma ParsedPropose(ms: seq<Member>, seqNo: nat, id: string, actor: string, actorKind: string)
    ensures var r := ParsePropose(ms, seqNo, id, actor, actorKind); r.Ok? ==> WellParsed(r.value)
  {
    hide GetStr, IdOf, ParseLines, Hex16, OpWord, Lines;
  }

  lemma ParsedFields(ms: seq<Member>, kind: string)
    ensures ParseFields(ms, kind).Ok? ==> WellParsed(ParseFields(ms, kind).value)
  {
    hide GetSeq, NonEmpty, WellParsed, ParsePropose;
    if GetSeq(ms).Ok? && NonEmpty(ms, "proposal_id").Ok? && NonEmpty(ms, "actor").Ok?
      && NonEmpty(ms, "actor_kind").Ok? {
      ParsedPropose(ms, GetSeq(ms).value, NonEmpty(ms, "proposal_id").value,
        NonEmpty(ms, "actor").value, NonEmpty(ms, "actor_kind").value);
    }
    ResolvedWell(ParseFields(ms, kind));
  }

  lemma ResolvedWell(r: Result<Row, FieldErr>)
    ensures r.Ok? && r.value.Resolved? ==> WellParsed(r.value)
  {
  }

  lemma RowWell(t: string)
    ensures ParseRow(t).Ok? ==> WellParsed(ParseRow(t).value)
  {
    hide Parse, GetStr, WellParsed, ParseFields, Keys;
    if Parse(t).Ok? && Parse(t).value.Obj? && GetStr(Parse(t).value.members, "kind").Ok? {
      ParsedFields(Parse(t).value.members, GetStr(Parse(t).value.members, "kind").value);
    }
  }

  lemma {:induction false} JournalWell(lines: seq<string>)
    ensures forall r :: r in ParseLinesOf(lines).rows ==> WellParsed(r)
    decreases |lines|
  {
    hide ParseRow, WellParsed, Trim;
    if lines != [] {
      JournalWell(lines[..|lines| - 1]);
      RowWell(Trim(lines[|lines| - 1]));
    }
  }
}
