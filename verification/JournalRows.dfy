/**
 What a row of the edit journal says and which lines of the journal are rows, over the members of a line:
 crates/caddis-deliberate/src/edits.rs.
 */
module JournalRows {
  import opened Wrappers
  import opened Text
  import opened Decimals
  import opened Json
  import opened JsonRoundTrip
  import opened Flat
  import opened Members
  import opened Cards
  import opened CardStream
  import opened CardLaws
  import opened EditJournal

  // ---------- what a row says ----------

  /** The members of a row. */
  ghost function Shape(r: Row): seq<Member> {
    match r
    case Proposed(seqNo, id, card, prior16, actor, actorKind) =>
      [Member("seq", Num(Int(seqNo))), Member("kind", Str("propose")), Member("proposal_id", Str(id)),
       Member("op", Str(if card.Seat? then "upsert-seat" else "upsert-provider")), Member("prior16", Str(prior16)),
       Member("actor", Str(actor)), Member("actor_kind", Str(actorKind)), Member("card", Str(EncodeCard(card)))]
    case Resolved(seqNo, id, resolution, actor, actorKind) =>
      [Member("seq", Num(Int(seqNo))), Member("kind", Str(if resolution.Confirm? then "confirm" else "refuse")),
       Member("proposal_id", Str(id)), Member("actor", Str(actor)), Member("actor_kind", Str(actorKind))]
  }

  lemma ShapeIs(r: Row)
    ensures EditJournal.RowMembers(r) == Shape(r)
  {
    hide EncodeCard;
  }

  /** A row's text, within the parser's cap, is the object of these members. */
  lemma {:induction false} RowSays(r: Row)
    requires Bytes(RowText(r)) <= MAX_BYTES
    ensures Parse(RowText(r)) == Ok(Obj(Shape(r)))
  {
    hide RowText, Parse, Bytes, Shape, EditJournal.RowMembers, Nest, WriteValue;
    RowIsWritten(r);
    ShapeIs(r);
    RoundTrip(Obj(Shape(r)));
  }

  // ---------- which lines are rows ----------

  /** Sixteen lower-case hexadecimal digits. */
  ghost predicate Prior(s: string) {
    |s| == 16 && forall i :: 0 <= i < 16 ==> '0' <= s[i] <= '9' || 'a' <= s[i] <= 'f'
  }

  /** A whole number from one to nine quadrillion. */
  ghost predicate HasSeq(ms: seq<Member>, n: nat) {
    1 <= n <= 9_000_000_000_000_000 && Has(ms, "seq", Num(Int(n)))
  }

  /** A text that is the stream of that one card. */
  ghost predicate HasCard(ms: seq<Member>, card: Card) {
    exists text :: Has(ms, "card", Str(text)) && ParseStream(text) == Ok([card])
  }

  ghost predicate SaysRow(ms: seq<Member>, r: Row) {
    match r
    case Proposed(seqNo, id, card, prior16, actor, actorKind) =>
      && Exactly(ms, ["seq", "kind", "proposal_id", "op", "prior16", "actor", "actor_kind", "card"])
      && HasSeq(ms, seqNo) && Has(ms, "kind", Str("propose"))
      && id == "e" + Dec(seqNo) && HasName(ms, "proposal_id", id)
      && Has(ms, "op", Str(if card.Seat? then "upsert-seat" else "upsert-provider"))
      && Prior(prior16) && Has(ms, "prior16", Str(prior16))
      && HasName(ms, "actor", actor) && HasName(ms, "actor_kind", actorKind) && HasCard(ms, card)
    case Resolved(seqNo, id, resolution, actor, actorKind) =>
      && Exactly(ms, ["seq", "kind", "proposal_id", "actor", "actor_kind"])
      && HasSeq(ms, seqNo) && Has(ms, "kind", Str(if resolution.Confirm? then "confirm" else "refuse"))
      && HasName(ms, "proposal_id", id) && HasName(ms, "actor", actor) && HasName(ms, "actor_kind", actorKind)
  }

  lemma SeqIs(ms: seq<Member>)
    ensures forall n: nat :: GetSeq(ms) == Ok(n) <==> HasSeq(ms, n)
  {
    hide Get, Has;
    forall n: nat ensures GetSeq(ms) == Ok(n) <==> HasSeq(ms, n) {
      HasIs(ms, "seq", Num(Int(n)));
    }
  }

  /** The fields of a proposal beside those every row has. */
  ghost predicate ProposalRead(ms: seq<Member>, seqNo: nat, id: string, card: Card, prior16: string) {
    && GetStr(ms, "op") == Ok(if card.Seat? then "upsert-seat" else "upsert-provider")
    && GetStr(ms, "prior16") == Ok(prior16) && Prior(prior16) && id == "e" + Dec(seqNo)
    && GetStr(ms, "card").Ok? && ParseStream(GetStr(ms, "card").value) == Ok([card])
  }

  lemma OneCard(r: Result<seq<Card>, nat>, card: Card)
    ensures r == Ok([card]) <==> r.Ok? && |r.value| == 1 && r.value[0] == card
  {
    if r.Ok? && |r.value| == 1 && r.value[0] == card {
      assert r.value == [card];
    }
  }

  lemma ProposalIs(ms: seq<Member>, seqNo: nat, id: string, actor: string, actorKind: string, r: Row)
    ensures ParsePropose(ms, seqNo, id, actor, actorKind) == Ok(r) <==>
      && r.Proposed? && r == Proposed(seqNo, id, r.card, r.prior16, actor, actorKind)
      && ProposalRead(ms, seqNo, id, r.card, r.prior16)
  {
    hide GetStr, ParseStream, Dec;
    if r.Proposed? && GetStr(ms, "card").Ok? {
      OneCard(ParseStream(GetStr(ms, "card").value), r.card);
    }
  }

  lemma ProposalMeans(ms: seq<Member>, seqNo: nat, id: string, card: Card, prior16: string)
    ensures ProposalRead(ms, seqNo, id, card, prior16) <==>
      && id == "e" + Dec(seqNo) && Has(ms, "op", Str(if card.Seat? then "upsert-seat" else "upsert-provider"))
      && Prior(prior16) && Has(ms, "prior16", Str(prior16)) && HasCard(ms, card)
  {
    hide GetStr, Has, ParseStream, Dec, Prior;
    StrIs(ms, "op");
    StrIs(ms, "prior16");
    StrIs(ms, "card");
    if HasCard(ms, card) {
      var text :| Has(ms, "card", Str(text)) && ParseStream(text) == Ok([card]);
      assert GetStr(ms, "card") == Ok(text);
    }
    if GetStr(ms, "card").Ok? && ParseStream(GetStr(ms, "card").value) == Ok([card]) {
      assert Has(ms, "card", Str(GetStr(ms, "card").value));
    }
  }

  /** The fields every row has. */
  ghost predicate CommonRead(ms: seq<Member>, seqNo: nat, id: string, actor: string, actorKind: string) {
    && GetSeq(ms) == Ok(seqNo) && NonEmpty(ms, "proposal_id") == Ok(id) && NonEmpty(ms, "actor") == Ok(actor)
    && NonEmpty(ms, "actor_kind") == Ok(actorKind)
  }

  lemma CommonMeans(ms: seq<Member>, seqNo: nat, id: string, actor: string, actorKind: string)
    ensures CommonRead(ms, seqNo, id, actor, actorKind) <==>
      && HasSeq(ms, seqNo) && HasName(ms, "proposal_id", id) && HasName(ms, "actor", actor)
      && HasName(ms, "actor_kind", actorKind)
  {
    hide GetSeq, NonEmpty, HasSeq, HasName;
    SeqIs(ms);
    NameIs(ms, "proposal_id");
    NameIs(ms, "actor");
    NameIs(ms, "actor_kind");
  }

  lemma FieldsAre(ms: seq<Member>, kind: string, r: Row)
    ensures ParseFields(ms, kind) == Ok(r) <==>
      && CommonRead(ms, r.seqNo, r.id, r.actor, r.actorKind)
      && (kind == "propose" ==> ParsePropose(ms, r.seqNo, r.id, r.actor, r.actorKind) == Ok(r))
      && (kind != "propose" ==> r.Resolved? && r.resolution == if kind == "confirm" then Confirm else Refuse)
  {
    hide GetSeq, NonEmpty, ParsePropose;
    if GetSeq(ms).Ok? && NonEmpty(ms, "proposal_id").Ok? && NonEmpty(ms, "actor").Ok?
      && NonEmpty(ms, "actor_kind").Ok? {
      ProposeKeeps(ms, GetSeq(ms).value, NonEmpty(ms, "proposal_id").value, NonEmpty(ms, "actor").value,
        NonEmpty(ms, "actor_kind").value);
    }
  }

  lemma ProposeKeeps(ms: seq<Member>, seqNo: nat, id: string, actor: string, actorKind: string)
    ensures var r := ParsePropose(ms, seqNo, id, actor, actorKind);
      r.Ok? ==> r.value.seqNo == seqNo && r.value.id == id && r.value.actor == actor && r.value.actorKind == actorKind
  {
    hide GetStr, ParseStream, IdOf, Hex16, OpWord;
  }

  ghost function Names(r: Row): seq<string> {
    if r.Proposed? then ["seq", "kind", "proposal_id", "op", "prior16", "actor", "actor_kind", "card"]
    else ["seq", "kind", "proposal_id", "actor", "actor_kind"]
  }

  lemma NamesMean(ms: seq<Member>, r: Row)
    ensures multiset(Keys(ms)) == multiset(if r.Proposed? then PROPOSE_FIELDS else RESOLVE_FIELDS)
      <==> Exactly(ms, Names(r))
  {
    EditJournal.FieldNamesDiffer();
    assert Names(r) == if r.Proposed? then PROPOSE_FIELDS else RESOLVE_FIELDS;
    hide PROPOSE_FIELDS, RESOLVE_FIELDS, Names;
    KeysMean(ms, Names(r));
    hide Keys, Exactly;
  }

  /** The kind a row's line names. */
  ghost function KindText(r: Row): string {
    if r.Proposed? then "propose" else if r.resolution.Confirm? then "confirm" else "refuse"
  }

  lemma KindMeans(ms: seq<Member>, r: Row)
    ensures SaysRow(ms, r) <==>
      && Exactly(ms, Names(r)) && Has(ms, "kind", Str(KindText(r)))
      && HasSeq(ms, r.seqNo) && HasName(ms, "proposal_id", r.id) && HasName(ms, "actor", r.actor)
      && HasName(ms, "actor_kind", r.actorKind)
      && (r.Proposed? ==>
            && r.id == "e" + Dec(r.seqNo)
            && Has(ms, "op", Str(if r.card.Seat? then "upsert-seat" else "upsert-provider"))
            && Prior(r.prior16) && Has(ms, "prior16", Str(r.prior16)) && HasCard(ms, r.card))
  {
    hide Exactly, Has, HasSeq, HasName, HasCard, Prior, Dec;
  }

  lemma ObjectIs(ms: seq<Member>, r: Row, t: string)
    requires Parse(t) == Ok(Obj(ms))
    ensures EditJournal.ParseRow(t) == Ok(r) <==>
      && GetStr(ms, "kind") == Ok(KindText(r))
      && multiset(Keys(ms)) == multiset(if r.Proposed? then PROPOSE_FIELDS else RESOLVE_FIELDS)
      && ParseFields(ms, KindText(r)) == Ok(r)
  {
    hide Parse, GetStr, Keys, PROPOSE_FIELDS, RESOLVE_FIELDS, ParseFields;
    if GetStr(ms, "kind").Ok? {
      FieldsAre(ms, GetStr(ms, "kind").value, r);
    }
    hide CommonRead;
    ProposalIs(ms, r.seqNo, r.id, r.actor, r.actorKind, r);
    hide ParsePropose, ProposalRead;
  }

  /** A line is a row exactly when it is one object that says the row. */
  lemma {:induction false} RowMeans(t: string, r: Row)
    ensures EditJournal.ParseRow(t) == Ok(r) <==>
      Parse(t).Ok? && Parse(t).value.Obj? && SaysRow(Parse(t).value.members, r)
  {
    hide Parse, GetStr, Keys, ParseFields, SaysRow, PROPOSE_FIELDS, RESOLVE_FIELDS;
    var p := Parse(t);
    if p.Ok? && p.value.Obj? {
      var ms := p.value.members;
      ObjectIs(ms, r, t);
      hide EditJournal.ParseRow;
      NamesMean(ms, r);
      KindMeans(ms, r);
      StrIs(ms, "kind");
      FieldsAre(ms, KindText(r), r);
      CommonMeans(ms, r.seqNo, r.id, r.actor, r.actorKind);
      ProposalIs(ms, r.seqNo, r.id, r.actor, r.actorKind, r);
      if r.Proposed? {
        ProposalMeans(ms, r.seqNo, r.id, r.card, r.prior16);
      }
      hide Exactly, Names, Has, HasSeq, HasName, HasCard, Prior, Dec, CommonRead, ParsePropose, ProposalRead;
      assert GetStr(ms, "kind") == Ok(KindText(r)) <==> Has(ms, "kind", Str(KindText(r)));
    }
  }

  // ---------- the whole journal ----------

  ghost predicate LineSays(line: string, r: Row) {
    var p := Parse(Trim(line));
    p.Ok? && p.value.Obj? && SaysRow(p.value.members, r)
  }

  ghost predicate IsRow(line: string) {
    exists r :: LineSays(line, r)
  }

  /** Places among the first `n` lines, one after the other. */
  ghost predicate Rising(places: seq<nat>, n: nat) {
    && (forall j, k :: 0 <= j < k < |places| ==> places[j] < places[k])
    && (forall k :: 0 <= k < |places| ==> places[k] < n)
  }

  /** Every row among the first `n` lines has its place. */
  ghost predicate Covers(places: seq<nat>, n: nat, lines: seq<string>) {
    n <= |lines| && forall i :: 0 <= i < n && IsRow(lines[i]) ==> i in places
  }

  ghost predicate Speak(places: seq<nat>, lines: seq<string>, rows: seq<Row>) {
    && |places| == |rows|
    && (forall k :: 0 <= k < |places| ==> places[k] < |lines| && LineSays(lines[places[k]], rows[k]))
  }

  /** The rows are those of the first `n` lines, all of them and in order. */
  ghost predicate Spelt(places: seq<nat>, n: nat, lines: seq<string>, rows: seq<Row>) {
    Rising(places, n) && Covers(places, n, lines) && Speak(places, lines, rows)
  }

  /** Those of the first `n` lines that are neither blank nor rows. */
  ghost function Unreadable(lines: seq<string>, n: nat): set<nat>
    requires n <= |lines|
  {
    set i: nat | i < n && Trim(lines[i]) != "" && !IsRow(lines[i])
  }

  lemma LineMeans(line: string)
    ensures forall r :: EditJournal.ParseRow(Trim(line)) == Ok(r) <==> LineSays(line, r)
    ensures EditJournal.ParseRow(Trim(line)).Ok? <==> IsRow(line)
    ensures IsRow(line) ==> Trim(line) != ""
  {
    hide Parse, Trim, SaysRow, EditJournal.ParseRow;
    forall r ensures EditJournal.ParseRow(Trim(line)) == Ok(r) <==> LineSays(line, r) {
      RowMeans(Trim(line), r);
    }
    if EditJournal.ParseRow(Trim(line)).Ok? {
      assert LineSays(line, EditJournal.ParseRow(Trim(line)).value);
    }
    NothingParses();
  }

  lemma NothingParses()
    ensures Parse("").Err?
  {
  }

  lemma FurtherPlace(places: seq<nat>, n: nat)
    requires Rising(places, n)
    ensures Rising(places + [n], n + 1)
  {
  }

  lemma FurtherCovers(places: seq<nat>, n: nat, lines: seq<string>)
    requires n < |lines| && Covers(places, n, lines)
    ensures Covers(places + [n], n + 1, lines)
    ensures !IsRow(lines[n]) ==> Covers(places, n + 1, lines)
  {
    hide IsRow;
    assert forall i :: i in places ==> i in places + [n];
    assert (places + [n])[|places|] == n;
  }

  lemma FurtherSpeaks(places: seq<nat>, n: nat, lines: seq<string>, rows: seq<Row>, r: Row)
    requires n < |lines| && Speak(places, lines, rows) && LineSays(lines[n], r)
    ensures Speak(places + [n], lines, rows + [r])
  {
    hide LineSays;
  }

  lemma UnreadableSnoc(lines: seq<string>, n: nat)
    requires n < |lines|
    ensures |Unreadable(lines, n + 1)| == |Unreadable(lines, n)|
      + if Trim(lines[n]) != "" && !IsRow(lines[n]) then 1 else 0
  {
    hide IsRow, Trim;
    var front := Unreadable(lines, n);
    assert Unreadable(lines, n + 1) == if Trim(lines[n]) != "" && !IsRow(lines[n]) then front + {n} else front;
  }

  lemma {:induction false} LinesMean(lines: seq<string>, n: nat) returns (places: seq<nat>)
    requires n <= |lines|
    ensures Spelt(places, n, lines, ParseLinesOf(lines[..n]).rows)
    ensures ParseLinesOf(lines[..n]).unparseable == |Unreadable(lines, n)|
    decreases n
  {
    hide EditJournal.ParseRow, Trim, LineSays, IsRow;
    if n == 0 {
      places := [];
      assert Unreadable(lines, 0) == {};
    } else {
      var m := n - 1;
      var before := LinesMean(lines, m);
      LineMeans(lines[m]);
      UnreadableSnoc(lines, m);
      hide Unreadable;
      assert lines[..n][..m] == lines[..m] && lines[..n][m] == lines[m];
      var rows := ParseLinesOf(lines[..m]).rows;
      places := before;
      if IsRow(lines[m]) {
        var r := EditJournal.ParseRow(Trim(lines[m])).value;
        places := before + [m];
        FurtherPlace(before, m);
        FurtherSpeaks(before, m, lines, rows, r);
      }
      FurtherCovers(before, m, lines);
      hide Covers, Speak;
    }
  }

  /** Every line of a journal is a row it holds, in order, or blank, or counted as unreadable. */
  lemma {:induction false} JournalMeans(text: string) returns (places: seq<nat>)
    ensures Spelt(places, |Lines(text)|, Lines(text), ParseJournal(text).rows)
    ensures ParseJournal(text).unparseable == |Unreadable(Lines(text), |Lines(text)|)|
  {
    hide ParseLinesOf, Lines, Spelt, Unreadable;
    var lines := Lines(text);
    assert lines[..|lines|] == lines;
    places := LinesMean(lines, |lines|);
  }
}
