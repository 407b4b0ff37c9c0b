/**
 What the three verbs answer and leave, read off the journal's rows, the stream's cards and the warden's
 report: crates/caddis-deliberate/src/edits.rs. Every refusal has its exact condition.
 */
module DeskLaws {
  import opened Wrappers
  import opened Text
  import Cards
  import opened CardStream
  import opened EditJournal
  import opened JournalLaws
  import opened Edits
  import opened EditDesk

  // ---------- the conditions ----------

  /** No line is unreadable, and the rows are orderly. */
  ghost predicate Readable(j: Journal) {
    j.unparseable == 0 && Orderly(j.rows)
  }

  /** One more than the largest number in the rows, 1 when there are none. */
  ghost predicate NextNumber(rows: seq<Row>, n: nat) {
    && n >= 1 && (forall r :: r in rows ==> r.seqNo < n)
    && (n == 1 || exists r :: r in rows && r.seqNo == n - 1)
  }

  ghost predicate Open(rows: seq<Row>, id: string, p: Row) {
    ProposeRow(rows, p, id) && !HasResolve(rows, id)
  }

  ghost predicate Parses(stream: Option<string>) {
    stream.Some? && ParseStream(stream.value).Ok?
  }

  /** The stream's last row with the card's key is that very card. */
  ghost predicate Holds(stream: Option<string>, c: Cards.Card)
    requires Parses(stream)
  {
    Cards.LastWith(ParseStream(stream.value).value, c.Key()) == Some(c)
  }

  /** The first sixteen digits of the stream's digest, or all there are. */
  ghost function Seen(h: Digest, stream: Option<string>): string
    requires stream.Some?
  {
    var d := h(stream.value);
    if |d| < 16 then d else d[..16]
  }

  ghost predicate Signed(req: Request) {
    req.actor != "" && req.actorKind != ""
  }

  // ---------- the helpers of the proofs ----------

  lemma {:induction false} MaxAttained(rows: seq<Row>)
    ensures MaxSeq(rows) == 0 || exists r :: r in rows && r.seqNo == MaxSeq(rows)
    decreases |rows|
  {
    if rows != [] {
      var front, last := rows[..|rows| - 1], rows[|rows| - 1];
      assert rows == front + [last];
      MaxAttained(front);
      if MaxSeq(rows) == last.seqNo {
        assert last in rows;
      } else if MaxSeq(front) != 0 {
        var r :| r in front && r.seqNo == MaxSeq(front);
        assert r in rows;
      }
    }
  }

  lemma NextIsMax(rows: seq<Row>)
    ensures NextNumber(rows, MaxSeq(rows) + 1)
  {
    MaxAttained(rows);
    hide MaxSeq;
  }

  lemma CleanIsReadable(j: Journal)
    ensures Clean(j) <==> Readable(j)
  {
    FoldLaw(j.rows);
    hide Fold, Orderly;
  }

  /** The pending proposal the verbs find is the one the rows leave open. */
  lemma FoundIsOpen(journal: string, id: string)
    ensures var j, r := ParseJournal(journal), FindPending(journal, id);
      && (r == Err(UnknownProposal) <==> Readable(j) && !HasPropose(j.rows, id))
      && (r == Err(NotPending(Confirmed)) <==> Readable(j) && exists a :: ResolvedAs(j.rows, id, Confirm, a))
      && (r == Err(NotPending(Refused)) <==> Readable(j) && exists a :: ResolvedAs(j.rows, id, Refuse, a))
      && (r == Err(Defect) <==> !Readable(j))
      && (r.Err? ==>
            || r.error.UnknownProposal? || r.error == NotPending(Confirmed) || r.error == NotPending(Refused)
            || r.error.Defect?)
      && (r.Ok? <==> Readable(j) && exists p :: Open(j.rows, id, p))
      && (r.Ok? ==> forall p :: Open(j.rows, id, p) ==>
        p == Proposed(r.value.seqNo, id, r.value.card, r.value.prior16, r.value.actor, r.value.actorKind))
  {
    var rows := ParseJournal(journal).rows;
    CleanIsReadable(ParseJournal(journal));
    FoldLaw(rows);
    hide ParseJournal, Fold, ResolvedAs, HasResolve, Clean;
    if Readable(ParseJournal(journal)) {
      var m := Fold(rows).value;
      ResolvedIsProposed(rows, id);
      Statuses(rows, m, id);
      if id in m {
        OneProposal(rows, m, id);
        var e := m[id];
        assert !HasResolve(rows, id) ==> Open(rows, id, Proposed(e.seqNo, id, e.card, e.prior16, e.actor, e.actorKind));
      }
    }
    OpenIsProposed(rows, id);
  }

  lemma OpenIsProposed(rows: seq<Row>, id: string)
    ensures forall p :: Open(rows, id, p) ==> HasPropose(rows, id)
  {
  }

  lemma OneProposal(rows: seq<Row>, m: Proposals, id: string)
    requires Orderly(rows) && Described(rows, m) && id in m
    ensures var e := m[id];
      var p := Proposed(e.seqNo, id, e.card, e.prior16, e.actor, e.actorKind);
      ProposeRow(rows, p, id) && forall q :: ProposeRow(rows, q, id) ==> q == p
  {
    hide HasPropose, HasResolve, ResolvedAs;
    assert Tells(rows, id, m[id]);
    var e := m[id];
    var p := Proposed(e.seqNo, id, e.card, e.prior16, e.actor, e.actorKind);
    forall q | ProposeRow(rows, q, id) ensures q == p {
      var i :| 0 <= i < |rows| && rows[i] == p;
      var k :| 0 <= k < |rows| && rows[k] == q;
    }
  }

  lemma Statuses(rows: seq<Row>, m: Proposals, id: string)
    requires Orderly(rows) && Described(rows, m)
    ensures id in m <==> HasPropose(rows, id)
    ensures id in m ==> (m[id].status == Pending <==> !HasResolve(rows, id))
    ensures id in m ==> (m[id].status == Confirmed <==> exists a :: ResolvedAs(rows, id, Confirm, a))
    ensures id in m ==> (m[id].status == Refused <==> exists a :: ResolvedAs(rows, id, Refuse, a))
    ensures id !in m ==> forall how, a :: !ResolvedAs(rows, id, how, a)
  {
    ResolvedIsProposed(rows, id);
    if id in m {
      assert Tells(rows, id, m[id]);
      hide HasPropose, HasResolve, ResolvedAs, Orderly;
      if m[id].status != Pending {
        var a := m[id].resolvedBy.value;
        assert m[id].status == Confirmed ==> ResolvedAs(rows, id, Confirm, a);
        assert m[id].status == Refused ==> ResolvedAs(rows, id, Refuse, a);
      }
    } else {
      Unresolved(rows, id);
    }
  }

  lemma NoopIsHeld(stream: Option<string>, c: Cards.Card)
    requires Parses(stream)
    ensures IsNoop(ParseStream(stream.value).value, c) <==> Holds(stream, c)
  {
    Cards.LastRowWins(ParseStream(stream.value).value, c.Key());
    hide ParseStream, Cards.Fold, Cards.LastWith;
  }

  lemma SeenIsDigest(h: Digest, stream: Option<string>)
    requires stream.Some?
    ensures Digest16(h, stream.value) == Seen(h, stream)
  {
  }

  // ---------- confirm ----------

  /** Everything a confirm checks, of the open proposal `p`. */
  ghost predicate Confirmable(h: Digest, st: Store, req: Request, p: Row)
    requires req.ConfirmReq?
  {
    && Signed(req) && Readable(ParseJournal(st.journal)) && Open(ParseJournal(st.journal).rows, req.id, p)
    && Parses(st.stream) && Seen(h, st.stream) == p.prior16 && !Holds(st.stream, p.card)
    && req.warden.unreadable == 0 && req.warden.active.Some?
  }

  /** The row a resolution appends, and whether it is appended. */
  ghost predicate Resolves(journal: string, row: Row, id: string, how: Resolution, req: Request) {
    && row.Resolved? && row.id == id && row.resolution == how
    && row.actor == req.actor && row.actorKind == req.actorKind
    && NextNumber(ParseJournal(journal).rows, row.seqNo)
  }

  ghost predicate Fits(row: Row) {
    Bytes(RowText(row) + "\n") <= 4096
  }

  ghost function Landed(st: Store, c: Cards.Card): Option<string>
    requires st.stream.Some?
  {
    Some(st.stream.value + (EncodeCard(c) + "\n"))
  }

  lemma ConfirmChecks(h: Digest, st: Store, req: Request, p: Row)
    requires req.ConfirmReq?
    requires Readable(ParseJournal(st.journal)) && Open(ParseJournal(st.journal).rows, req.id, p)
    ensures var r := CheckConfirm(h, st.stream, st.journal, req);
      && FindPending(st.journal, req.id).Ok?
      && (!Parses(st.stream) ==> r == Err(Defect))
      && (Parses(st.stream) ==>
            r == if Seen(h, st.stream) != p.prior16 then Err(Stale)
                 else if Holds(st.stream, p.card) then Err(Noop)
                 else if req.warden.unreadable > 0 then Err(Defect)
                 else if req.warden.active.None? then Err(GateClosed)
                 else Ok(Entry(p.seqNo, p.card, p.prior16, p.actor, p.actorKind, Pending, None)))
  {
    FoundIsOpen(st.journal, req.id);
    FoundEntry(st.journal, req.id);
    if Parses(st.stream) {
      NoopIsHeld(st.stream, p.card);
      SeenIsDigest(h, st.stream);
    }
    hide ParseJournal, ParseStream, FindPending, IsNoop, Digest16, Holds, Seen, Open, Readable;
  }

  /** A pending entry nobody has resolved. */
  lemma FoundEntry(journal: string, id: string)
    ensures FindPending(journal, id).Ok? ==>
      FindPending(journal, id).value.status == Pending && FindPending(journal, id).value.resolvedBy.None?
  {
    var rows := ParseJournal(journal).rows;
    FoldLaw(rows);
    hide ParseJournal, Fold, Orderly, HasPropose, HasResolve, ResolvedAs, ProposeRow;
    if FindPending(journal, id).Ok? {
      assert Tells(rows, id, Fold(rows).value[id]);
    }
  }

  /** How the answer and the new store follow from the check. */
  lemma ConfirmFollows(h: Digest, st: Store, req: Request)
    requires req.ConfirmReq?
    ensures var r := CheckConfirm(h, st.stream, st.journal, req);
      && (!Signed(req) ==> Answer(h, st, req) == Err(Defect) && After(h, st, req) == st)
      && (Signed(req) && r.Err? ==> Answer(h, st, req) == Err(r.error) && After(h, st, req) == st)
  {
    hide CheckConfirm, EncodeCard, ReadStream, Bytes, LineFor;
  }

  lemma ConfirmLands(h: Digest, st: Store, req: Request, row: Row)
    requires req.ConfirmReq? && Signed(req) && CheckConfirm(h, st.stream, st.journal, req).Ok? && st.stream.Some?
    requires row == Resolved(MaxSeq(ParseJournal(st.journal).rows) + 1, req.id, Confirm, req.actor, req.actorKind)
    requires req.warden.active.Some?
    ensures var c := CheckConfirm(h, st.stream, st.journal, req).value.card;
      var done := Parses(Landed(st, c)) && Fits(row);
      && After(h, st, req) == Store(Landed(st, c), if done then st.journal + (RowText(row) + "\n") else st.journal)
      && Answer(h, st, req)
         == if done then Ok(DidConfirm(req.id, row.seqNo, c.Key(), req.warden.active.value)) else Err(Defect)
  {
    var c := CheckConfirm(h, st.stream, st.journal, req).value.card;
    assert ReadStream(WithCard(st, c).stream).Ok? <==> Parses(Landed(st, c)) by {
      hide ParseStream, EncodeCard;
    }
    hide CheckConfirm, EncodeCard, ReadStream, Bytes, LineFor, RowText, MaxSeq, ParseJournal, Parses;
    LineIs(st.journal, row, req);
  }

  /** What a confirm leaves and answers, by the row it appends. */
  ghost predicate ConfirmDone(h: Digest, st: Store, req: Request, p: Row, row: Row)
    requires req.ConfirmReq? && st.stream.Some? && p.Proposed? && req.warden.active.Some?
  {
    var done := Parses(Landed(st, p.card)) && Fits(row);
    && Resolves(st.journal, row, req.id, Confirm, req)
    && After(h, st, req) == Store(Landed(st, p.card), if done then st.journal + (RowText(row) + "\n") else st.journal)
    && Answer(h, st, req)
       == if done then Ok(DidConfirm(req.id, row.seqNo, p.card.Key(), req.warden.active.value)) else Err(Defect)
  }

  /**
   A confirm lands exactly the card of the proposal the rows leave open, when the journal is readable, the
   stream parses, is the one the proposal was pinned to and does not hold the card already, and the
   warden's report is readable and names an active card. It then appends one confirm row with the next
   number and answers with what it did, unless the stream no longer parses or the row is too long.
   */
  lemma {:induction false} ConfirmLaw(h: Digest, st: Store, req: Request, p: Row)
    requires req.ConfirmReq?
    requires Confirmable(h, st, req, p)
    ensures exists row :: ConfirmDone(h, st, req, p, row)
  {
    hide ParseJournal, ParseStream, CheckConfirm, Answer, After, Landed, Parses, Fits, Resolves, RowText, EncodeCard;
    hide Confirmable, MaxSeq, Signed;
    ConfirmableChecks(h, st, req, p);
    var row := Resolved(MaxSeq(ParseJournal(st.journal).rows) + 1, req.id, Confirm, req.actor, req.actorKind);
    NextRow(st.journal, row, req, Confirm);
    ConfirmLands(h, st, req, row);
    assert ConfirmDone(h, st, req, p, row);
  }

  lemma NextRow(journal: string, row: Row, req: Request, how: Resolution)
    requires !req.ProposeReq?
    requires row == Resolved(MaxSeq(ParseJournal(journal).rows) + 1, req.id, how, req.actor, req.actorKind)
    ensures Resolves(journal, row, req.id, how, req)
  {
    hide NextNumber, MaxSeq, ParseJournal;
    NextIsMax(ParseJournal(journal).rows);
  }

  /** The line a resolution appends is its row's. */
  lemma LineIs(journal: string, row: Row, req: Request)
    requires !req.ProposeReq?
    requires row == Resolved(MaxSeq(ParseJournal(journal).rows) + 1, req.id,
      if req.ConfirmReq? then Confirm else Refuse, req.actor, req.actorKind)
    ensures LineFor(journal, ResolveDraft(req)) == RowText(row) + "\n"
  {
    hide RowText, MaxSeq, ParseJournal;
  }

  lemma ConfirmableChecks(h: Digest, st: Store, req: Request, p: Row)
    requires req.ConfirmReq?
    requires Confirmable(h, st, req, p)
    ensures Signed(req) && st.stream.Some? && req.warden.active.Some? && p.Proposed?
    ensures CheckConfirm(h, st.stream, st.journal, req).Ok?
    ensures CheckConfirm(h, st.stream, st.journal, req).value.card == p.card
  {
    hide ParseJournal, ParseStream, CheckConfirm, Holds, Seen, Readable, HasResolve;
    ConfirmChecks(h, st, req, p);
  }

  /**
   Every other confirm leaves everything as it was, and each refusal says which condition failed: they are
   looked at in the order journal, proposal, stream, digest, no-op, warden.
   */
  lemma {:induction false} ConfirmRefusals(h: Digest, st: Store, req: Request)
    requires req.ConfirmReq?
    ensures var j, a := ParseJournal(st.journal), Answer(h, st, req);
      && ((forall p :: !Confirmable(h, st, req, p)) ==> a.Err? && After(h, st, req) == st)
      && (a == Err(UnknownProposal) <==> Signed(req) && Readable(j) && !HasPropose(j.rows, req.id))
      && (a == Err(NotPending(Confirmed)) <==>
            Signed(req) && Readable(j) && exists x :: ResolvedAs(j.rows, req.id, Confirm, x))
      && (a == Err(NotPending(Refused)) <==>
            Signed(req) && Readable(j) && exists x :: ResolvedAs(j.rows, req.id, Refuse, x))
      && forall p :: Signed(req) && Readable(j) && Open(j.rows, req.id, p) && Parses(st.stream) ==>
           && (a == Err(Stale) <==> Seen(h, st.stream) != p.prior16)
           && (a == Err(Noop) <==> Seen(h, st.stream) == p.prior16 && Holds(st.stream, p.card))
           && (a == Err(GateClosed) <==>
                 && Seen(h, st.stream) == p.prior16 && !Holds(st.stream, p.card)
                 && req.warden.unreadable == 0 && req.warden.active.None?)
  {
    hide ParseJournal, ParseStream, FindPending, CheckConfirm, Holds, Seen, Open, Readable, HasPropose;
    hide ResolvedAs, Parses;
    hide Answer, After;
    FoundIsOpen(st.journal, req.id);
    ConfirmFollows(h, st, req);
    CheckedFound(h, st, req);
    if Signed(req) && FindPending(st.journal, req.id).Ok? {
      var p :| Open(ParseJournal(st.journal).rows, req.id, p);
      ConfirmChecks(h, st, req, p);
      OpenOne(st.journal, req.id, p);
      if CheckConfirm(h, st.stream, st.journal, req).Ok? {
        assert Confirmable(h, st, req, p);
        ConfirmNamed(h, st, req, p);
      }
    } else if Signed(req) {
      NothingOpen(h, st, req);
    } else {
      assert forall p :: !Confirmable(h, st, req, p);
    }
  }

  lemma OpenOne(journal: string, id: string, p: Row)
    requires Readable(ParseJournal(journal)) && Open(ParseJournal(journal).rows, id, p)
    ensures forall q :: Open(ParseJournal(journal).rows, id, q) ==> q == p
  {
    hide ParseJournal, FindPending, HasPropose, HasResolve, ResolvedAs, ProposeRow, Readable, Open;
    FoundIsOpen(journal, id);
  }

  /** A confirm whose checks pass is answered by neither refusal of them. */
  lemma ConfirmNamed(h: Digest, st: Store, req: Request, p: Row)
    requires req.ConfirmReq?
    requires Confirmable(h, st, req, p)
    ensures Answer(h, st, req).Err? ==> Answer(h, st, req) == Err(Defect)
  {
    hide Resolves, Landed, Fits, Answer, After, Holds, Seen, Open, Readable;
    ConfirmLaw(h, st, req, p);
  }

  lemma NothingOpen(h: Digest, st: Store, req: Request)
    requires req.ConfirmReq?
    requires FindPending(st.journal, req.id).Err?
    ensures forall p :: !Confirmable(h, st, req, p)
    ensures forall p :: !(Readable(ParseJournal(st.journal)) && Open(ParseJournal(st.journal).rows, req.id, p))
  {
    hide ParseJournal, ParseStream, FindPending, Holds, Seen, Open, Readable, HasPropose, ResolvedAs, Parses;
    FoundIsOpen(st.journal, req.id);
  }

  /** What the search for the proposal refuses, the check refuses. */
  lemma CheckedFound(h: Digest, st: Store, req: Request)
    requires req.ConfirmReq?
    ensures FindPending(st.journal, req.id).Err? ==>
      CheckConfirm(h, st.stream, st.journal, req) == Err(FindPending(st.journal, req.id).error)
  {
    hide FindPending, ReadStream, Digest16, IsNoop;
  }

  // ---------- propose and refuse ----------

  /** Everything a proposal checks. */
  ghost predicate Proposable(st: Store, req: Request)
    requires req.ProposeReq?
  {
    && Signed(req) && SelfValid(req.card) && Readable(ParseJournal(st.journal))
    && Parses(st.stream) && !Holds(st.stream, req.card)
  }

  /** What a proposal leaves and answers, by its number. */
  ghost predicate ProposeDone(h: Digest, st: Store, req: Request, n: nat)
    requires req.ProposeReq? && st.stream.Some?
  {
    var row := Proposed(n, "e" + Dec(n), req.card, Seen(h, st.stream), req.actor, req.actorKind);
    && NextNumber(ParseJournal(st.journal).rows, n)
    && After(h, st, req) == (if Fits(row) then Store(st.stream, st.journal + (RowText(row) + "\n")) else st)
    && Answer(h, st, req) == if Fits(row) then Ok(DidPropose("e" + Dec(n))) else Err(Defect)
  }

  /** What the checks under the lock find. */
  lemma ProposeChecks(h: Digest, st: Store, req: Request)
    requires req.ProposeReq?
    ensures var r := CheckPropose(h, st.stream, st.journal, req);
      && (r == Err(Noop) <==>
            Readable(ParseJournal(st.journal)) && Parses(st.stream) && Holds(st.stream, req.card))
      && (r.Ok? <==> Readable(ParseJournal(st.journal)) && Parses(st.stream) && !Holds(st.stream, req.card))
      && (r.Ok? ==> r.value == Proposal(req.card, Seen(h, st.stream), req.actor, req.actorKind))
  {
    CleanIsReadable(ParseJournal(st.journal));
    if Parses(st.stream) {
      NoopIsHeld(st.stream, req.card);
      SeenIsDigest(h, st.stream);
    }
    hide ParseJournal, ParseStream, Holds, Seen, Readable, IsNoop, Digest16, Clean;
  }

  lemma ProposeFollows(h: Digest, st: Store, req: Request)
    requires req.ProposeReq?
    ensures var r := CheckPropose(h, st.stream, st.journal, req);
      && (!Signed(req) || !SelfValid(req.card) ==> Answer(h, st, req) == Err(Defect) && After(h, st, req) == st)
      && (Signed(req) && SelfValid(req.card) && r.Err? ==>
            Answer(h, st, req) == Err(r.error) && After(h, st, req) == st)
  {
    hide CheckPropose, SelfValid, LineFor;
  }

  lemma ProposeLands(h: Digest, st: Store, req: Request, n: nat)
    requires req.ProposeReq? && Signed(req) && SelfValid(req.card) && st.stream.Some?
    requires CheckPropose(h, st.stream, st.journal, req)
      == Ok(Proposal(req.card, Seen(h, st.stream), req.actor, req.actorKind))
    requires n == MaxSeq(ParseJournal(st.journal).rows) + 1
    ensures ProposeDone(h, st, req, n)
  {
    NextIsMax(ParseJournal(st.journal).rows);
    hide CheckPropose, ParseJournal, RowText, Bytes, MaxSeq, SelfValid, NextNumber, Seen, Dec;
    var row := Proposed(n, "e" + Dec(n), req.card, Seen(h, st.stream), req.actor, req.actorKind);
    assert RowOf(Proposal(req.card, Seen(h, st.stream), req.actor, req.actorKind), n) == row;
  }

  /**
   A proposal is journaled exactly when its own checks pass and its row fits: one propose row with the next
   number, the id that number spells, its card and the stream's digest. The stream is never touched.
   */
  lemma {:induction false} ProposeLaw(h: Digest, st: Store, req: Request)
    requires req.ProposeReq?
    ensures !Proposable(st, req) ==> After(h, st, req) == st && Answer(h, st, req).Err?
    ensures Answer(h, st, req) == Err(Noop) <==>
      && Signed(req) && SelfValid(req.card) && Readable(ParseJournal(st.journal))
      && Parses(st.stream) && Holds(st.stream, req.card)
    ensures Proposable(st, req) ==> exists n :: ProposeDone(h, st, req, n)
  {
    hide ParseJournal, ParseStream, CheckPropose, MaxSeq, Holds, Seen, Readable, SelfValid, Answer, After;
    ProposeChecks(h, st, req);
    ProposeFollows(h, st, req);
    var n := MaxSeq(ParseJournal(st.journal).rows) + 1;
    if Proposable(st, req) {
      ProposeLands(h, st, req, n);
    }
    hide ProposeDone;
  }

  /** A refusal is journaled exactly for a proposal the rows leave open: one refuse row with the next number. */
  lemma {:induction false} RefuseLaw(h: Digest, st: Store, req: Request)
    requires req.RefuseReq?
    ensures var j, a := ParseJournal(st.journal), Answer(h, st, req);
      && (After(h, st, req) != st || a.Ok? ==> Signed(req) && Readable(j) && exists p :: Open(j.rows, req.id, p))
      && (a == Err(UnknownProposal) <==> Signed(req) && Readable(j) && !HasPropose(j.rows, req.id))
      && (a == Err(NotPending(Confirmed)) <==>
            Signed(req) && Readable(j) && exists x :: ResolvedAs(j.rows, req.id, Confirm, x))
      && (a == Err(NotPending(Refused)) <==>
            Signed(req) && Readable(j) && exists x :: ResolvedAs(j.rows, req.id, Refuse, x))
      && (Signed(req) && Readable(j) && (exists p :: Open(j.rows, req.id, p)) ==>
           exists row :: RefuseDone(h, st, req, row))
  {
    hide ParseJournal, FindPending, RowText, MaxSeq, Open, Readable, HasPropose, ResolvedAs;
    hide Answer, After, Fits, Resolves;
    hide Signed;
    FoundIsOpen(st.journal, req.id);
    RefuseFollows(h, st, req);
    var row := Resolved(MaxSeq(ParseJournal(st.journal).rows) + 1, req.id, Refuse, req.actor, req.actorKind);
    NextRow(st.journal, row, req, Refuse);
    if Signed(req) && FindPending(st.journal, req.id).Ok? {
      assert RefuseDone(h, st, req, row);
    }
  }

  /** What a refusal leaves and answers, by the row it appends. */
  ghost predicate RefuseDone(h: Digest, st: Store, req: Request, row: Row)
    requires req.RefuseReq?
  {
    && Resolves(st.journal, row, req.id, Refuse, req)
    && After(h, st, req) == (if Fits(row) then Store(st.stream, st.journal + (RowText(row) + "\n")) else st)
    && Answer(h, st, req) == if Fits(row) then Ok(DidRefuse(row.seqNo)) else Err(Defect)
  }

  lemma RefuseFollows(h: Digest, st: Store, req: Request)
    requires req.RefuseReq?
    ensures var r := FindPending(st.journal, req.id);
      var row := Resolved(MaxSeq(ParseJournal(st.journal).rows) + 1, req.id, Refuse, req.actor, req.actorKind);
      && (!Signed(req) ==> Answer(h, st, req) == Err(Defect) && After(h, st, req) == st)
      && (Signed(req) && r.Err? ==> Answer(h, st, req) == Err(r.error) && After(h, st, req) == st)
      && (Signed(req) && r.Ok? ==>
            && After(h, st, req) == (if Fits(row) then Store(st.stream, st.journal + (RowText(row) + "\n")) else st)
            && Answer(h, st, req) == if Fits(row) then Ok(DidRefuse(row.seqNo)) else Err(Defect))
  {
    hide ParseJournal, FindPending, RowText, Bytes, MaxSeq, LineFor;
    var row := Resolved(MaxSeq(ParseJournal(st.journal).rows) + 1, req.id, Refuse, req.actor, req.actorKind);
    LineIs(st.journal, row, req);
  }
}
