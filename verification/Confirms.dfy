/**
 When a confirm answers with an error although its card has landed: crates/caddis-deliberate/src/edits.rs
 writes the stream first, reads it back, and appends the confirm row last.
 */
module Confirms {
  import opened Wrappers
  import opened Text
  import opened Json
  import opened Flat
  import Cards
  import opened CardStream
  import opened EditJournal
  import opened Edits
  import opened EditDesk
  import opened Warden

  /** The stream as a confirm leaves it cannot be read, or the confirm row would pass the row cap. */
  ghost predicate FailsLate(h: Digest, st: Store, req: Request)
    requires req.ConfirmReq? && CheckConfirm(h, st.stream, st.journal, req).Ok?
  {
    || ReadStream(WithCard(st, CheckConfirm(h, st.stream, st.journal, req).value.card).stream).Err?
    || Bytes(LineFor(st.journal, ResolveDraft(req))) > ROW_CAP
  }

  /** A confirm errs after its card has landed exactly when its checks pass and it fails behind them. */
  lemma {:induction false} ErrsAfterLanding(h: Digest, st: Store, req: Request)
    requires req.ConfirmReq?
    ensures Answer(h, st, req).Err? && After(h, st, req) != st <==>
      Admissible(req) && CheckConfirm(h, st.stream, st.journal, req).Ok? && FailsLate(h, st, req)
  {
    CheckedStream(h, st, req);
    hide CheckConfirm, EncodeCard, ReadStream, Bytes, LineFor, Admissible;
  }

  lemma CheckedStream(h: Digest, st: Store, req: Request)
    requires req.ConfirmReq?
    ensures CheckConfirm(h, st.stream, st.journal, req).Ok? ==> st.stream.Some? && ParseStream(st.stream.value).Ok?
  {
    hide FindPending, ParseStream, IsNoop, Digest16;
  }

  /** It then answers with a defect, leaves the card's line in the stream, and the journal as it was. */
  lemma {:induction false} CappedConfirmHasApplied(h: Digest, st: Store, req: Request)
    requires req.ConfirmReq? && Admissible(req) && CheckConfirm(h, st.stream, st.journal, req).Ok?
    requires FailsLate(h, st, req)
    ensures var p := CheckConfirm(h, st.stream, st.journal, req).value;
      && Answer(h, st, req) == Err(Defect)
      && After(h, st, req) == Store(Some(Stored(st.stream) + (EncodeCard(p.card) + "\n")), st.journal)
  {
    hide CheckConfirm, EncodeCard, ReadStream, Bytes, LineFor;
  }

  lemma LateByCap(h: Digest, st: Store, req: Request)
    requires req.ConfirmReq? && CheckConfirm(h, st.stream, st.journal, req).Ok?
    requires Bytes(LineFor(st.journal, ResolveDraft(req))) > ROW_CAP
    ensures FailsLate(h, st, req)
    ensures st.stream.Some? && Stored(st.stream) == st.stream.value
  {
    CheckedStream(h, st, req);
    hide CheckConfirm, EncodeCard, ReadStream, Bytes, LineFor;
  }

  // ---------- a stream that ends a line ----------

  lemma {:induction false} LinesSnoc(lines: seq<string>, line: string, n: nat)
    requires ParseLines(lines, n).Ok? && Trim(line) != ""
    ensures ParseLines(lines + [line], n).Ok? <==> ParseLine(Trim(line)).Ok?
    decreases |lines|
  {
    hide ParseLine, Trim;
    if lines == [] {
      assert [] + [line] == [line] && [line][1..] == [];
      assert ParseLines([], n + 1) == Ok([]);
    } else {
      assert (lines + [line])[1..] == lines[1..] + [line];
      LinesSnoc(lines[1..], line, n + 1);
    }
  }

  lemma LandedReads(text: string, c: Cards.Card)
    requires Terminated(text) && ParseStream(text).Ok? && SelfValid(c)
    ensures ParseStream(text + (EncodeCard(c) + "\n")).Ok?
  {
    hide EncodeCard, Lines, Trim, ParseLine, ParseLines, SelfValid;
    CardLine(c);
    SelfValidLine(c);
    LinesAppend(text, EncodeCard(c) + "\n");
    LinesSnoc(Lines(text), EncodeCard(c), 1);
  }

  /** Over a stream that ends a line, a confirm of a self-valid card errs after landing exactly by the row cap. */
  lemma {:induction false} OnlyTheCap(h: Digest, st: Store, req: Request)
    requires req.ConfirmReq? && Terminated(Stored(st.stream))
    requires var p := CheckConfirm(h, st.stream, st.journal, req); p.Ok? ==> SelfValid(p.value.card)
    ensures Answer(h, st, req).Err? && After(h, st, req) != st <==>
      && Admissible(req) && CheckConfirm(h, st.stream, st.journal, req).Ok?
      && Bytes(LineFor(st.journal, ResolveDraft(req))) > ROW_CAP
  {
    ErrsAfterLanding(h, st, req);
    if CheckConfirm(h, st.stream, st.journal, req).Ok? {
      CheckedStream(h, st, req);
      LandedReads(Stored(st.stream), CheckConfirm(h, st.stream, st.journal, req).value.card);
    }
    hide Answer, After, CheckConfirm, EncodeCard, ParseStream, Bytes, LineFor, Terminated, SelfValid, Admissible;
  }

  // ---------- one such request ----------

  function Many(c: char, n: nat): (s: string)
    ensures |s| == n && forall i :: 0 <= i < n ==> s[i] == c
  {
    seq(n, _ => c)
  }

  function Source(id: string): Cards.ProviderCard {
    Cards.ProviderCard(id, Cards.Http, "", "", "", 1, "s")
  }

  function Named(id: string): Cards.Card {
    Cards.Provider(Source(id))
  }

  function Proposal1(): Row {
    Proposed(1, IdOf(1), Named("b"), Many('0', 16), "me", "human")
  }

  /** A stream with one provider, a journal that proposes a second, and a confirmer with a long name. */
  function Shelf(): Store {
    Store(Some(RenderSeed([Named("a")])), "" + (RowText(Proposal1()) + "\n"))
  }

  function LongConfirm(): Request {
    ConfirmReq(IdOf(1), Many('x', 5000), "human", CardState(0, Some("w")))
  }

  function ZeroDigest(text: string): string {
    Many('0', 64)
  }

  lemma {:induction false} PrintableEscaped(s: string)
    requires Printable(s)
    ensures |s| <= |Escaped(s)| <= 2 * |s|
  {
    if s != [] {
      PrintableEscaped(s[1..]);
    }
  }

  lemma {:induction false} PairsSnoc(fields: seq<(string, string)>, f: (string, string))
    ensures |Pairs(fields + [f])| <= |Pairs(fields)| + |f.0| + |f.1| + 4
    decreases |fields|
  {
    if fields == [] {
      assert [] + [f] == [f];
    } else {
      assert (fields + [f])[1..] == fields[1..] + [f];
      PairsSnoc(fields[1..], f);
    }
  }

  lemma {:induction false} PairsHold(fields: seq<(string, string)>, i: nat)
    requires i < |fields|
    ensures |Pairs(fields)| >= |fields[i].1|
    decreases |fields|
  {
    if i > 0 {
      PairsHold(fields[1..], i - 1);
    }
  }

  lemma WordLength(w: string)
    requires Plain(w)
    ensures WriteStr(w) == Word(w) && |WriteStr(w)| == |w| + 2
  {
    PlainEscaped(w);
  }

  lemma CardShort(id: string)
    requires Plain(id) && 1 <= |id| <= 8
    ensures |EncodeCard(Named(id))| <= 178
  {
    ShortWords(id);
    hide Plain, WriteStr, Word, Dec, LaneWord;
    var fields := ProviderFields(Source(id));
    assert forall i :: 0 <= i < |fields| ==> AtMost(fields[i], 18);
    hide ProviderFields, AtMost;
    PairsLength(fields, 18);
    hide Pairs;
  }

  lemma ShortWords(id: string)
    requires Plain(id) && |id| <= 8
    ensures |Word("provider")| == 10 && |WriteStr(id)| <= 10 && |Word(LaneWord(Cards.Http))| == 6 && |WriteStr("")| == 2
    ensures |Dec(1)| == 1 && |WriteStr("s")| == 3
  {
    assert Plain("") && Plain("s");
    hide Plain, WriteStr, Escaped;
    WordLength(id);
    WordLength("");
    WordLength("s");
  }

  /** The proposal's card reads back, alone and in a stream. */
  lemma CardsFine(id: string)
    requires Plain(id) && 1 <= |id| <= 8
    ensures SelfValid(Named(id)) && ParseStream(RenderSeed([Named(id)])) == Ok([Named(id)])
  {
    CardShort(id);
    var c := Named(id);
    hide EncodeCard;
    BytesBound(EncodeCard(c));
    hide Bytes, ParseStream, RenderSeed;
    SelfValidLaw(c);
    StreamRoundTrip([c]);
  }

  ghost predicate Brief(s: string, n: nat) {
    Plain(s) && |s| <= n
  }

  lemma RowShort(r: Row)
    requires r.Proposed? && |Dec(r.seqNo)| == 1 && |EncodeCard(r.card)| <= 178 && Brief(OpWord(r.card), 15)
    requires Brief(r.id, 8) && Brief(r.prior16, 16) && Brief(r.actor, 8) && Brief(r.actorKind, 8)
    ensures Bytes(RowText(r) + "\n") <= ROW_CAP
  {
    RowFront(r);
    RowLast(r);
    hide EncodeCard, WriteStr, Word, Dec, OpWord, Plain;
    var front, last := RowFields(r)[..7], RowFields(r)[7];
    assert RowFields(r) == front + [last];
    hide RowFields, AtMost;
    PairsLength(front, 30);
    PairsSnoc(front, last);
    hide Pairs;
    BytesBound(RowText(r) + "\n");
  }

  lemma RowFront(r: Row)
    requires r.Proposed? && |Dec(r.seqNo)| == 1 && Brief(OpWord(r.card), 15)
    requires Brief(r.id, 8) && Brief(r.prior16, 16) && Brief(r.actor, 8) && Brief(r.actorKind, 8)
    ensures forall i :: 0 <= i < 7 ==> AtMost(RowFields(r)[i], 30)
  {
    hide EncodeCard, WriteStr, Dec, OpWord, Plain;
    WordLength(r.id);
    WordLength(OpWord(r.card));
    WordLength(r.prior16);
    WordLength(r.actor);
    WordLength(r.actorKind);
  }

  lemma RowLast(r: Row)
    requires r.Proposed? && |EncodeCard(r.card)| <= 178
    ensures |RowFields(r)[7].0| + |RowFields(r)[7].1| <= 362
  {
    CardIsWritten(r.card);
    WrittenPrintable(Obj(CardMembers(r.card)));
    hide EncodeCard, CardMembers, WriteValue, OpWord;
    PrintableEscaped(EncodeCard(r.card));
    hide Escaped;
  }

  /** What a journal of one row holds. */
  lemma RowAlone(r: Row)
    requires EditJournal.Sound(r) && Bytes(RowText(r) + "\n") <= ROW_CAP && r.seqNo <= MAX_SEQ
    ensures ParseJournal("" + (RowText(r) + "\n")) == Journal([r], 0)
  {
    EmptyJournal();
    hide RowText, ParseJournal, Bytes, EditJournal.Sound, Terminated;
    AppendedRow("", r);
    assert [] + [r] == [r];
  }

  lemma EmptyJournal()
    ensures Terminated("") && ParseJournal("") == Journal([], 0)
  {
  }

  lemma BriefRow()
    ensures var r := Proposal1();
      && r.Proposed? && r.seqNo == 1 && r.card == Named("b") && r.id == IdOf(r.seqNo) && r.prior16 == Many('0', 16)
      && |Dec(r.seqNo)| == 1 && Brief(OpWord(r.card), 15)
      && Brief(r.id, 8) && Brief(r.prior16, 16) && Brief(r.actor, 8) && Brief(r.actorKind, 8)
  {
  }

  lemma SoundRow(r: Row)
    requires r.Proposed? && r.seqNo == 1 && r.id == IdOf(r.seqNo) && r.actor != "" && r.actorKind != ""
    requires SelfValid(r.card) && r.prior16 == Many('0', 16)
    ensures EditJournal.Sound(r)
  {
    hide SelfValid, Dec;
  }

  lemma NamedRow()
    ensures Proposal1().actor != "" && Proposal1().actorKind != "" && Plain("b") && |"b"| == 1
  {
  }

  lemma ShelfRow()
    ensures EditJournal.Sound(Proposal1()) && Bytes(RowText(Proposal1()) + "\n") <= ROW_CAP
  {
    hide *;
    NamedRow();
    CardsFine("b");
    CardShort("b");
    BriefRow();
    RowShort(Proposal1());
    SoundRow(Proposal1());
  }

  lemma LongLine(journal: string)
    ensures Bytes(LineFor(journal, ResolveDraft(LongConfirm()))) > ROW_CAP
  {
    LongRow(RowOf(ResolveDraft(LongConfirm()), MaxSeq(ParseJournal(journal).rows) + 1));
  }

  lemma LongRow(r: Row)
    requires r.Resolved? && |r.actor| >= 5000 && Printable(r.actor)
    ensures Bytes(RowText(r) + "\n") > ROW_CAP
  {
    assert RowFields(r)[3] == ("actor", WriteStr(r.actor));
    PairsHold(RowFields(r), 3);
    PrintableEscaped(r.actor);
    hide Pairs, RowFields, Escaped;
    assert |RowText(r) + "\n"| > 5000;
  }

  /** A journal with one pending proposal, a stream it is not in, and the digest it was pinned to. */
  lemma Passes(h: Digest, text: string, cards: seq<Cards.Card>, journal: string, r: Row, req: Request)
    requires ParseJournal(journal) == Journal([r], 0) && r.Proposed? && req.ConfirmReq? && req.id == r.id
    requires ParseStream(text) == Ok(cards) && Digest16(h, text) == r.prior16 && !IsNoop(cards, r.card)
    requires req.warden.unreadable == 0 && req.warden.active.Some?
    ensures FindPending(journal, r.id).Ok?
    ensures CheckConfirm(h, Some(text), journal, req)
      == Ok(Entry(r.seqNo, r.card, r.prior16, r.actor, r.actorKind, Pending, None))
  {
    hide ParseJournal, ParseStream, Digest16, IsNoop;
    assert [r][..0] == [];
    assert Fold([r]) == EditJournal.Apply(map[], r);
  }

  lemma OnlyThat(c: Cards.Card, d: Cards.Card)
    requires c.Provider? && d.Provider? && c.p.id != d.p.id
    ensures !IsNoop([c], d)
  {
    assert [c][..0] == [];
    assert Cards.Fold([c]) == Cards.Fold([]).With(c);
  }

  lemma ShelfIs()
    ensures Shelf() == Store(Some(RenderSeed([Named("a")])), "" + (RowText(Proposal1()) + "\n"))
  {
    hide RowText, RenderSeed, Proposal1, Named;
  }

  lemma RequestIs()
    ensures var req := LongConfirm();
      req.ConfirmReq? && req.id == IdOf(1) && req.warden.unreadable == 0 && req.warden.active.Some? && Admissible(req)
  {
    hide IdOf;
  }

  lemma ProposalIs()
    ensures var r := Proposal1();
      && r.Proposed? && r.seqNo == 1 <= MAX_SEQ && r.id == IdOf(1) && r.card == Named("b") && r.prior16 == Many('0', 16)
      && r.actor == "me" && r.actorKind == "human"
  {
    hide IdOf, Named;
  }

  lemma NotThere()
    ensures Plain("a") && |"a"| == 1 && !IsNoop([Named("a")], Named("b"))
  {
    OnlyThat(Named("a"), Named("b"));
    hide IsNoop;
  }

  lemma ShelfPasses()
    ensures FindPending(Shelf().journal, IdOf(1)).Ok?
    ensures CheckConfirm(ZeroDigest, Shelf().stream, Shelf().journal, LongConfirm())
      == Ok(Entry(1, Named("b"), Many('0', 16), "me", "human", Pending, None))
  {
    hide *;
    ShelfIs();
    RequestIs();
    ProposalIs();
    NotThere();
    ShelfRow();
    RowAlone(Proposal1());
    CardsFine("a");
    ZeroPrefix(Shelf().stream.value);
    Passes(ZeroDigest, Shelf().stream.value, [Named("a")], Shelf().journal, Proposal1(), LongConfirm());
  }

  lemma ZeroPrefix(text: string)
    ensures Digest16(ZeroDigest, text) == Many('0', 16)
  {
    assert Many('0', 64)[..16] == Many('0', 16);
  }

  /** The card of this confirm is in the stream, its answer is a defect, and the proposal is still pending. */
  lemma {:induction false} LongConfirmLands()
    ensures var st, req := Shelf(), LongConfirm();
      && Answer(ZeroDigest, st, req) == Err(Defect)
      && After(ZeroDigest, st, req) == Store(Some(st.stream.value + (EncodeCard(Named("b")) + "\n")), st.journal)
      && FindPending(After(ZeroDigest, st, req).journal, IdOf(1)).Ok?
  {
    hide *;
    ShelfPasses();
    ShelfIs();
    RequestIs();
    LongLine(Shelf().journal);
    LateByCap(ZeroDigest, Shelf(), LongConfirm());
    CappedConfirmHasApplied(ZeroDigest, Shelf(), LongConfirm());
  }
}
