/**
 Proposing, confirming and refusing edits of the card stream: crates/caddis-deliberate/src/edits.rs.
 Here are the checks of each verb, the append to the journal, and every interleaving of their steps
 with writers that do not take the lock, with crashes, and with the operator who then unlocks.
 */
module Edits {
  import opened Wrappers
  import opened Text
  import opened Json
  import opened Flat
  import Cards
  import opened CardStream
  import opened EditJournal
  import opened Warden

  type Card = Cards.Card
  type Digest = string -> string

  datatype EditErr = Stale | Noop | UnknownProposal | NotPending(status: Status) | GateClosed | Defect

  datatype Request =
    | ProposeReq(card: Card, actor: string, actorKind: string)
    | ConfirmReq(id: string, actor: string, actorKind: string, warden: CardState)
    | RefuseReq(id: string, actor: string, actorKind: string)

  /** What is checked before the lock is asked for. */
  predicate Admissible(req: Request) {
    req.actor != "" && req.actorKind != "" && (req.ProposeReq? ==> SelfValid(req.card))
  }

  // ---------- the checks under the lock ----------

  predicate Clean(j: Journal) {
    j.unparseable == 0 && Fold(j.rows).Some?
  }

  function ReadStream(stream: Option<string>): Result<(string, seq<Card>), EditErr> {
    if stream.None? then Err(Defect)
    else
      match ParseStream(stream.value)
      case Err(_) => Err(Defect)
      case Ok(cards) => Ok((stream.value, cards))
  }

  function Digest16(h: Digest, text: string): string {
    if |h(text)| >= 16 then h(text)[..16] else h(text)
  }

  predicate IsNoop(cards: seq<Card>, card: Card) {
    Cards.Fold(cards).Find(card.Key()) == Some(card)
  }

  function CheckPropose(h: Digest, stream: Option<string>, journal: string, req: Request): Result<Draft, EditErr>
    requires req.ProposeReq?
  {
    if !Clean(ParseJournal(journal)) then Err(Defect)
    else
      var read :- ReadStream(stream);
      if IsNoop(read.1, req.card) then Err(Noop)
      else Ok(Proposal(req.card, Digest16(h, read.0), req.actor, req.actorKind))
  }

  /** The pending proposal of that id. */
  function FindPending(journal: string, id: string): Result<Entry, EditErr> {
    if !Clean(ParseJournal(journal)) then Err(Defect)
    else
      var m := Fold(ParseJournal(journal).rows).value;
      if id !in m then Err(UnknownProposal)
      else if m[id].status != Pending then Err(NotPending(m[id].status))
      else Ok(m[id])
  }

  function CheckConfirm(h: Digest, stream: Option<string>, journal: string, req: Request): Result<Entry, EditErr>
    requires req.ConfirmReq?
  {
    var p :- FindPending(journal, req.id);
    var read :- ReadStream(stream);
    if Digest16(h, read.0) != p.prior16 then Err(Stale)
    else if IsNoop(read.1, p.card) then Err(Noop)
    else if req.warden.unreadable > 0 then Err(Defect)
    else if req.warden.active.None? then Err(GateClosed)
    else Ok(p)
  }

  // ---------- the append to the journal ----------

  function LineFor(journal: string, draft: Draft): string {
    RowText(RowOf(draft, MaxSeq(ParseJournal(journal).rows) + 1)) + "\n"
  }

  /** `append_line_locked`: the journal after it, unchanged when the row would pass the cap. */
  function Appended(journal: string, draft: Draft): string {
    if Bytes(LineFor(journal, draft)) > ROW_CAP then journal else journal + LineFor(journal, draft)
  }

  function AppendResult(journal: string, draft: Draft): Result<nat, EditErr> {
    if Bytes(LineFor(journal, draft)) > ROW_CAP then Err(Defect) else Ok(MaxSeq(ParseJournal(journal).rows) + 1)
  }

  // ---------- steps ----------

  /** Who holds the lock, and how far it got; `Stuck` is the lock file of a process that died. */
  datatype Phase =
    | Free
    | Stuck
    | Checking(req: Request)
    | Applying(draft: Draft, entry: Entry, seen: string)
    | Loading(draft: Draft, entry: Entry)
    | Journaling(draft: Draft)

  /** A card appended by a confirm: for which proposal, and the stream its check had read. */
  datatype Application = Application(id: string, card: Card, prior16: string, seen: string)

  datatype State = State(stream: Option<string>, journal: string, phase: Phase, applied: seq<Application>)

  datatype Event =
    | Begin(req: Request)
    | Check
    | Apply
    | Load
    | Record
    | Crash
    | OperatorUnlock
    | Outside(text: string)

  predicate Enabled(s: State, e: Event) {
    match e
    case Begin(req) => s.phase.Free? && Admissible(req)
    case Check => s.phase.Checking?
    case Apply => s.phase.Applying?
    case Load => s.phase.Loading?
    case Record => s.phase.Journaling?
    case Crash => !s.phase.Free?
    case OperatorUnlock => s.phase.Stuck?
    case Outside(text) => Terminated(text)
  }

  function Stored(stream: Option<string>): string {
    if stream.Some? then stream.value else ""
  }

  function Checked(h: Digest, s: State): Phase
    requires s.phase.Checking?
  {
    match s.phase.req
    case ProposeReq(_, _, _) => (
      match CheckPropose(h, s.stream, s.journal, s.phase.req)
      case Err(_) => Free
      case Ok(draft) => Journaling(draft))
    case ConfirmReq(id, actor, actorKind, _) => (
      match CheckConfirm(h, s.stream, s.journal, s.phase.req)
      case Err(_) => Free
      case Ok(p) => Applying(Resolve(id, Confirm, actor, actorKind), p, Stored(s.stream)))
    case RefuseReq(id, actor, actorKind) =>
      match FindPending(s.journal, id)
      case Err(_) => Free
      case Ok(_) => Journaling(Resolve(id, Refuse, actor, actorKind))
  }

  function Next(h: Digest, s: State, e: Event): State
    requires Enabled(s, e)
  {
    match e
    case Begin(req) => s.(phase := Checking(req))
    case Check => s.(phase := Checked(h, s))
    case Apply =>
      var Applying(draft, p, seen) := s.phase;
      s.(stream := Some(Stored(s.stream) + (EncodeCard(p.card) + "\n")), phase := Loading(draft, p),
         applied := s.applied + [Application(if draft.Resolve? then draft.id else "", p.card, p.prior16, seen)])
    case Load => s.(phase := if ReadStream(s.stream).Ok? then Journaling(s.phase.draft) else Free)
    case Record => s.(journal := Appended(s.journal, s.phase.draft), phase := Free)
    case Crash => s.(phase := Stuck)
    case OperatorUnlock => s.(phase := Free)
    case Outside(text) => s.(stream := Some(Stored(s.stream) + text))
  }

  function Run(h: Digest, s: State, es: seq<Event>): Option<State>
    decreases |es|
  {
    if es == [] then Some(s)
    else if Enabled(s, es[0]) then Run(h, Next(h, s, es[0]), es[1..])
    else None
  }

  // ---------- the invariant ----------

  ghost predicate HasLine(stream: Option<string>, c: Card) {
    stream.Some? && EncodeCard(c) in Lines(stream.value)
  }

  /** Proposals of a journal that folds. */
  ghost predicate Folds(journal: string, m: Proposals) {
    Terminated(journal) && Fold(ParseJournal(journal).rows) == Some(m)
  }

  ghost predicate ConfirmedApplied(stream: Option<string>, m: Proposals) {
    forall id :: id in m && m[id].status == Confirmed ==> HasLine(stream, m[id].card)
  }

  /** An application was pinned to the text its check read, which the stream has since outgrown. */
  ghost predicate Pinned(h: Digest, stream: Option<string>, m: Proposals, a: Application) {
    && a.id in m && m[a.id].prior16 == a.prior16 == Digest16(h, a.seen) && m[a.id].card == a.card
    && |a.seen| < |Stored(stream)| && HasLine(stream, a.card)
  }

  ghost predicate AllPinned(h: Digest, stream: Option<string>, m: Proposals, applied: seq<Application>) {
    && (forall i :: 0 <= i < |applied| ==> Pinned(h, stream, m, applied[i]))
    && (forall i, j :: 0 <= i < j < |applied| ==> |applied[i].seen| < |applied[j].seen|)
  }

  predicate Named(d: Draft) {
    d.actor != "" && d.actorKind != ""
  }

  /** What the draft under way was checked for still holds: only the lock holder writes the journal. */
  ghost predicate DraftSound(stream: Option<string>, m: Proposals, d: Draft) {
    Named(d) && match d
      case Proposal(card, prior16, _, _) => SelfValid(card) && Hex16(prior16)
      case Resolve(id, resolution, _, _) =>
        && id in m && m[id].status == Pending
        && (resolution.Confirm? ==> HasLine(stream, m[id].card))
  }

  ghost predicate PhaseSound(h: Digest, s: State, m: Proposals) {
    match s.phase
    case Free => true
    case Stuck => true
    case Checking(req) => Admissible(req)
    case Applying(draft, p, seen) =>
      && Named(draft) && draft.Resolve? && draft.resolution.Confirm?
      && draft.id in m && m[draft.id] == p && p.status == Pending
      && p.prior16 == Digest16(h, seen) && |seen| <= |Stored(s.stream)|
      && (forall i :: 0 <= i < |s.applied| ==> |s.applied[i].seen| < |seen|)
    case Loading(draft, p) => DraftSound(s.stream, m, draft)
    case Journaling(draft) => DraftSound(s.stream, m, draft)
  }

  ghost predicate InvWith(h: Digest, s: State, m: Proposals) {
    && Terminated(Stored(s.stream)) && Folds(s.journal, m)
    && ConfirmedApplied(s.stream, m)
    && AllPinned(h, s.stream, m, s.applied)
    && PhaseSound(h, s, m)
  }

  ghost predicate Inv(h: Digest, s: State) {
    exists m :: InvWith(h, s, m)
  }

  /** The digest is what it is: at least sixteen lowercase hexadecimal digits. */
  ghost predicate Hexes(h: Digest) {
    forall t :: Hex16(Digest16(h, t))
  }

  // ---------- the stream only grows ----------

  lemma GrownHasLine(stream: Option<string>, more: string, c: Card)
    requires Terminated(Stored(stream)) && HasLine(stream, c)
    ensures HasLine(Some(Stored(stream) + more), c)
  {
    hide EncodeCard, Lines;
    LinesAppend(Stored(stream), more);
  }

  lemma GrowKeeps(h: Digest, s: State, m: Proposals, more: string)
    requires InvWith(h, s, m) && Terminated(more)
    ensures InvWith(h, s.(stream := Some(Stored(s.stream) + more)), m)
  {
    hide HasLine, Folds, SelfValid, Hex16, Digest16, Admissible;
    var t := Some(Stored(s.stream) + more);
    assert Terminated(Stored(t)) by {
      if more != "" {
        assert Stored(t)[|Stored(t)| - 1] == more[|more| - 1];
      } else {
        assert Stored(t) == Stored(s.stream);
      }
    }
    hide Terminated;
    forall c | HasLine(s.stream, c) ensures HasLine(t, c) {
      GrownHasLine(s.stream, more, c);
    }
    forall i | 0 <= i < |s.applied| ensures Pinned(h, t, m, s.applied[i]) {
      assert Pinned(h, s.stream, m, s.applied[i]);
    }
  }

  // ---------- the journal ----------

  /** A card's row ends up a line of its own, whatever its strings hold. */
  lemma CardLanded(text: string, c: Card)
    requires Terminated(text)
    ensures HasLine(Some(text + (EncodeCard(c) + "\n")), c) && Terminated(EncodeCard(c) + "\n")
  {
    hide EncodeCard, Lines, Trim;
    CardLine(c);
    LinesAppend(text, EncodeCard(c) + "\n");
  }

  lemma PendingNamed(journal: string, m: Proposals, id: string)
    requires Folds(journal, m) && id in m
    ensures id != ""
  {
    hide Lines, WellParsed;
    JournalWell(Lines(journal));
    FoldedIds(ParseJournal(journal).rows);
  }

  // ---------- the steps keep the invariant ----------

  lemma FoundPending(journal: string, m: Proposals, id: string)
    requires Folds(journal, m) && FindPending(journal, id).Ok?
    ensures id in m && m[id] == FindPending(journal, id).value && m[id].status == Pending
  {
    hide ParseJournal, Fold;
  }

  lemma CheckKeeps(h: Digest, s: State, m: Proposals)
    requires InvWith(h, s, m) && Enabled(s, Check) && Hexes(h)
    ensures InvWith(h, Next(h, s, Check), m)
  {
    hide HasLine, Folds, SelfValid, Hex16, Digest16, ParseJournal, ReadStream, IsNoop, Terminated;
    var req := s.phase.req;
    if !req.ProposeReq? && FindPending(s.journal, req.id).Ok? {
      FoundPending(s.journal, m, req.id);
    }
    if req.ConfirmReq? && Checked(h, s).Applying? {
      ReadIsStored(s.stream);
      forall i | 0 <= i < |s.applied| ensures |s.applied[i].seen| < |Stored(s.stream)| {
        assert Pinned(h, s.stream, m, s.applied[i]);
      }
    }
  }

  lemma ReadIsStored(stream: Option<string>)
    ensures ReadStream(stream).Ok? ==> stream.Some? && ReadStream(stream).value.0 == Stored(stream)
  {
    hide ParseStream;
  }

  lemma ApplyKeeps(h: Digest, s: State, m: Proposals)
    requires InvWith(h, s, m) && Enabled(s, Apply)
    ensures InvWith(h, Next(h, s, Apply), m)
  {
    hide HasLine, Folds, SelfValid, Hex16, Digest16, EncodeCard, Admissible;
    var Applying(draft, p, seen) := s.phase;
    var line := EncodeCard(p.card) + "\n";
    CardLanded(Stored(s.stream), p.card);
    GrowKeeps(h, s, m, line);
    var grown := s.(stream := Some(Stored(s.stream) + line));
    var t := Next(h, s, Apply);
    hide Terminated;
    var a := t.applied[|s.applied|];
    assert Pinned(h, t.stream, m, a);
    forall i | 0 <= i < |t.applied| ensures Pinned(h, t.stream, m, t.applied[i]) {
      if i < |s.applied| {
        assert Pinned(h, grown.stream, m, grown.applied[i]);
      }
    }
  }

  function RowNow(journal: string, draft: Draft): Row {
    RowOf(draft, MaxSeq(ParseJournal(journal).rows) + 1)
  }

  /** The row a sound draft becomes. */
  lemma DraftRow(journal: string, stream: Option<string>, m: Proposals, draft: Draft)
    requires Folds(journal, m) && DraftSound(stream, m, draft)
    ensures Sound(RowNow(journal, draft))
  {
    hide HasLine, SelfValid, Hex16, ParseJournal, Terminated, Dec;
    if draft.Resolve? {
      PendingNamed(journal, m, draft.id);
    }
  }

  /** What the row does to the proposals: it adds one, or resolves a pending one. */
  lemma RowFolds(journal: string, stream: Option<string>, m: Proposals, draft: Draft)
    requires Folds(journal, m) && DraftSound(stream, m, draft)
    ensures var n := EditJournal.Apply(m, RowNow(journal, draft));
      n.Some? && Fold(ParseJournal(journal).rows + [RowNow(journal, draft)]) == n
  {
    hide HasLine, SelfValid, Hex16, ParseRow, Terminated, Lines, IdOf;
    var rows, r := ParseJournal(journal).rows, RowNow(journal, draft);
    JournalWell(Lines(journal));
    NextIdIsNew(rows);
    assert (rows + [r])[..|rows|] == rows;
  }

  /** Adding a pending proposal, or resolving one as checked, leaves the rest of the record as it was. */
  lemma RowKeepsRecord(h: Digest, stream: Option<string>, m: Proposals, applied: seq<Application>, draft: Draft,
      seqNo: nat)
    requires ConfirmedApplied(stream, m) && AllPinned(h, stream, m, applied) && DraftSound(stream, m, draft)
    requires EditJournal.Apply(m, RowOf(draft, seqNo)).Some?
    ensures var n := EditJournal.Apply(m, RowOf(draft, seqNo)).value;
      ConfirmedApplied(stream, n) && AllPinned(h, stream, n, applied)
  {
    hide HasLine, SelfValid, Hex16, Digest16, IdOf;
    var n := EditJournal.Apply(m, RowOf(draft, seqNo)).value;
    forall i | 0 <= i < |applied| ensures Pinned(h, stream, n, applied[i]) {
      assert Pinned(h, stream, m, applied[i]);
    }
  }

  /** The journal after the row, which a number past the parser's range leaves folding as it did. */
  lemma RecordFolds(journal: string, stream: Option<string>, m: Proposals, draft: Draft) returns (n: Proposals)
    requires Folds(journal, m) && DraftSound(stream, m, draft)
    ensures Folds(Appended(journal, draft), n)
    ensures n == m || EditJournal.Apply(m, RowNow(journal, draft)) == Some(n)
  {
    var r := RowNow(journal, draft);
    n := m;
    if Bytes(LineFor(journal, draft)) <= ROW_CAP {
      hide ParseJournal, Bytes, RowText, Terminated, Sound, Fold, MaxSeq, RowOf, EditJournal.Apply, DraftSound;
      DraftRow(journal, stream, m, draft);
      RowFolds(journal, stream, m, draft);
      AppendedRow(journal, r);
      if r.seqNo <= MAX_SEQ {
        n := EditJournal.Apply(m, r).value;
      }
    }
  }

  lemma {:induction false} RecordKeeps(h: Digest, s: State, m: Proposals, draft: Draft) returns (n: Proposals)
    requires InvWith(h, s, m) && s.phase == Journaling(draft)
    ensures InvWith(h, s.(journal := Appended(s.journal, draft), phase := Free), n)
  {
    hide Folds, Appended, Terminated, EditJournal.Apply, AllPinned, ConfirmedApplied, DraftSound, RowOf, MaxSeq;
    n := RecordFolds(s.journal, s.stream, m, draft);
    if n != m {
      RowKeepsRecord(h, s.stream, m, s.applied, draft, MaxSeq(ParseJournal(s.journal).rows) + 1);
    }
  }

  lemma {:induction false} Step(h: Digest, s: State, e: Event)
    requires Inv(h, s) && Enabled(s, e) && Hexes(h)
    ensures Inv(h, Next(h, s, e))
  {
    var m :| InvWith(h, s, m);
    match e
    case Check => CheckKeeps(h, s, m);
    case Apply => ApplyKeeps(h, s, m);
    case Record =>
      var n := RecordKeeps(h, s, m, s.phase.draft);
    case Outside(text) => GrowKeeps(h, s, m, text);
    case _ => assert InvWith(h, Next(h, s, e), m) by {
      hide HasLine, Folds, SelfValid, Hex16, Digest16, ParseStream, Admissible, Terminated, AllPinned, ConfirmedApplied;
    }
  }

  lemma {:induction false} RunKeeps(h: Digest, s: State, es: seq<Event>)
    requires Inv(h, s) && Hexes(h) && Run(h, s, es).Some?
    ensures Inv(h, Run(h, s, es).value)
    decreases |es|
  {
    hide Inv, Next, Enabled, Hexes;
    if es != [] {
      Step(h, s, es[0]);
      RunKeeps(h, Next(h, s, es[0]), es[1..]);
    }
  }

  // ---------- the safety of every run ----------

  /** Nobody at work, a journal that folds, and whatever it has confirmed is in the stream. */
  ghost predicate Initial(s: State) {
    && s.phase.Free? && s.applied == [] && Terminated(Stored(s.stream))
    && Terminated(s.journal) && Fold(ParseJournal(s.journal).rows).Some?
    && ConfirmedApplied(s.stream, Fold(ParseJournal(s.journal).rows).value)
  }

  /** The digest tells the texts apart that two applications were pinned to. */
  ghost predicate TellsApart(h: Digest, applied: seq<Application>) {
    forall i, j :: 0 <= i < j < |applied| && applied[i].seen != applied[j].seen ==>
      Digest16(h, applied[i].seen) != Digest16(h, applied[j].seen)
  }

  /**
   Over every run of the three verbs, writers outside the lock, crashes between any two steps and the
   operator's unlocks: the journal always folds without a defect; whatever it has confirmed has its
   line in the stream; every card a confirm appended is its proposal's, appended under the digest the
   proposal was pinned to; and unless the digest confuses two stream texts, no two applications were
   pinned alike, so no proposal is applied twice and of all those pinned to one stream at most one is.
   */
  lemma {:induction false} EditsAreSafe(h: Digest, s: State, es: seq<Event>)
    requires Initial(s) && Hexes(h) && Run(h, s, es).Some?
    ensures var t := Run(h, s, es).value; var m := Fold(ParseJournal(t.journal).rows);
      && m.Some? && ConfirmedApplied(t.stream, m.value)
      && (forall i :: 0 <= i < |t.applied| ==> Pinned(h, t.stream, m.value, t.applied[i]))
      && (TellsApart(h, t.applied) ==> forall i, j :: 0 <= i < j < |t.applied| ==>
            t.applied[i].prior16 != t.applied[j].prior16 && t.applied[i].id != t.applied[j].id)
  {
    assert InvWith(h, s, Fold(ParseJournal(s.journal).rows).value);
    RunKeeps(h, s, es);
    var t := Run(h, s, es).value;
    var m :| InvWith(h, t, m);
    hide Run, ParseJournal, HasLine, Digest16, Terminated, PhaseSound;
    if TellsApart(h, t.applied) {
      forall i, j | 0 <= i < j < |t.applied|
        ensures t.applied[i].prior16 != t.applied[j].prior16 && t.applied[i].id != t.applied[j].id
      {
        assert Pinned(h, t.stream, m, t.applied[i]) && Pinned(h, t.stream, m, t.applied[j]);
        assert |t.applied[i].seen| < |t.applied[j].seen|;
      }
    }
  }

  /** A line that is a valid card's is one of the cards of a stream that parses. */
  lemma {:induction false} LineIsCard(text: string, c: Card)
    requires SelfValid(c) && ParseStream(text).Ok? && EncodeCard(c) in Lines(text)
    ensures c in ParseStream(text).value
  {
    hide Lines, EncodeCard, ParseLines;
    var line := EncodeCard(c);
    SelfValidLine(c);
    LineInLines(Lines(text), 1, line, c);
  }

  lemma SelfValidLine(c: Card)
    requires SelfValid(c)
    ensures Trim(EncodeCard(c)) != "" && ParseLine(Trim(EncodeCard(c))) == Ok(c)
  {
    hide ParseLine, Trim, NewlineAt, EncodeCard;
    EncodeLine(c);
    var line := EncodeCard(c);
    assert Lines(line) == [line];
    assert [line][1..] == [];
    assert ParseLines([line][1..], 2) == Ok([]);
    assert [c] == [c] + [];
    assert [c][0] == c;
  }

  /** `self_validate` takes exactly the cards whose line reads back. */
  lemma {:induction false} SelfValidLaw(c: Card)
    requires Typed(c)
    ensures SelfValid(c) <==> Acceptable(c) && Bytes(EncodeCard(c)) <= MAX_BYTES && CountsHeld(c)
  {
    if SelfValid(c) {
      SelfValidLine(c);
    }
    hide ParseLine, Trim, EncodeCard, Acceptable, Bytes, CountsHeld, Typed;
    EncodeLine(c);
    CardLine(c);
    LineReads(c);
    var line := EncodeCard(c);
    assert Lines(line) == [line] && [line][1..] == [];
    assert ParseLines([line][1..], 2) == Ok([]);
    assert [c] == [c] + [];
  }

  lemma EncodeLine(c: Card)
    ensures EncodeCard(c) != "" && NewlineAt(EncodeCard(c)) == |EncodeCard(c)|
  {
    hide Pairs, ProviderFields, SeatFields, CardMembers, NewlineAt;
    CardIsWritten(c);
    WrittenPrintable(Json.Obj(CardMembers(c)));
  }

  lemma {:induction false} LineInLines(lines: seq<string>, n: nat, line: string, c: Card)
    requires ParseLines(lines, n).Ok? && line in lines && Trim(line) != "" && ParseLine(Trim(line)) == Ok(c)
    ensures c in ParseLines(lines, n).value
    decreases |lines|
  {
    hide ParseLine, Trim;
    if lines[0] != line {
      LineInLines(lines[1..], n + 1, line, c);
    }
  }
}
