/**
 The three verbs of crates/caddis-deliberate/src/edits.rs run to their end by one process, and the
 proof that each is a run of the steps of Edits.dfy.
 */
module EditDesk {
  import opened Wrappers
  import opened Text
  import Cards
  import opened CardStream
  import opened EditJournal
  import opened Edits

  datatype Outcome =
    | DidPropose(id: string)
    | DidConfirm(id: string, seqNo: nat, key: (bool, string), wardenCard: string)
    | DidRefuse(seqNo: nat)

  datatype Store = Store(stream: Option<string>, journal: string)

  // ---------- what a verb leaves and answers ----------

  function Recorded(st: Store, draft: Draft): Store {
    st.(journal := Appended(st.journal, draft))
  }

  function WithCard(st: Store, c: Cards.Card): Store {
    st.(stream := Some(Stored(st.stream) + (EncodeCard(c) + "\n")))
  }

  function ResolveDraft(req: Request): Draft
    requires !req.ProposeReq?
  {
    Resolve(req.id, if req.ConfirmReq? then Confirm else Refuse, req.actor, req.actorKind)
  }

  function After(h: Digest, st: Store, req: Request): Store {
    if !Admissible(req) then st
    else
      match req
      case ProposeReq(_, _, _) => (
        match CheckPropose(h, st.stream, st.journal, req)
        case Err(_) => st
        case Ok(draft) => Recorded(st, draft))
      case ConfirmReq(_, _, _, _) => (
        match CheckConfirm(h, st.stream, st.journal, req)
        case Err(_) => st
        case Ok(p) =>
          var applied := WithCard(st, p.card);
          if ReadStream(applied.stream).Err? then applied else Recorded(applied, ResolveDraft(req)))
      case RefuseReq(id, _, _) =>
        match FindPending(st.journal, id)
        case Err(_) => st
        case Ok(_) => Recorded(st, ResolveDraft(req))
  }

  function Answer(h: Digest, st: Store, req: Request): Result<Outcome, EditErr> {
    if !Admissible(req) then Err(Defect)
    else
      match req
      case ProposeReq(_, _, _) =>
        var draft :- CheckPropose(h, st.stream, st.journal, req);
        var n :- AppendResult(st.journal, draft);
        Ok(DidPropose(IdOf(n)))
      case ConfirmReq(id, _, _, warden) => (
        match CheckConfirm(h, st.stream, st.journal, req)
        case Err(e) => Err(e)
        case Ok(p) =>
          if ReadStream(WithCard(st, p.card).stream).Err? then Err(Defect)
          else
            var n :- AppendResult(st.journal, ResolveDraft(req));
            Ok(DidConfirm(id, n, p.card.Key(), if warden.active.Some? then warden.active.value else "")))
      case RefuseReq(id, _, _) =>
        var _ :- FindPending(st.journal, id);
        var n :- AppendResult(st.journal, ResolveDraft(req));
        Ok(DidRefuse(n))
  }

  class Desk {
    const h: Digest
    var stream: Option<string>
    var journal: string
    var locked: bool

    ghost function Abstract(): Store
      reads this
    {
      Store(stream, journal)
    }

    constructor (h: Digest, stream: Option<string>, journal: string)
      ensures this.h == h && Abstract() == Store(stream, journal) && !locked
    {
      this.h, this.stream, this.journal, this.locked := h, stream, journal, false;
    }

    /** `append_line_locked`. */
    method AppendLine(draft: Draft) returns (r: Result<nat, EditErr>)
      modifies this`journal
      ensures journal == Appended(old(journal), draft) && r == AppendResult(old(journal), draft)
    {
      hide ParseJournal, RowText, MaxSeq, RowOf;
      var seqNo := MaxSeq(ParseJournal(journal).rows) + 1;
      var line := RowText(RowOf(draft, seqNo)) + "\n";
      if Bytes(line) > ROW_CAP {
        return Err(Defect);
      }
      journal := journal + line;
      r := Ok(seqNo);
    }

    /** The fold the checks start from: a defect, no such proposal, or one already resolved. */
    method Find(id: string) returns (r: Result<Entry, EditErr>)
      ensures r == FindPending(journal, id)
    {
      var j := ParseJournal(journal);
      if j.unparseable > 0 {
        return Err(Defect);
      }
      var m := FoldJournal(j.rows);
      if m.None? {
        return Err(Defect);
      }
      if id !in m.value {
        return Err(UnknownProposal);
      }
      if m.value[id].status != Pending {
        return Err(NotPending(m.value[id].status));
      }
      r := Ok(m.value[id]);
    }

    method Propose(req: Request) returns (r: Result<Outcome, EditErr>)
      requires req.ProposeReq?
      modifies this
      ensures locked == old(locked)
      ensures old(locked) ==> r == Err(Defect) && Abstract() == old(Abstract())
      ensures !old(locked) ==> r == Answer(h, old(Abstract()), req) && Abstract() == After(h, old(Abstract()), req)
    {
      hide Admissible, CheckPropose, Appended, AppendResult, IdOf;
      if !Admissible(req) || locked {
        return Err(Defect);
      }
      locked := true;
      var draft := CheckPropose(h, stream, journal, req);
      if draft.Err? {
        locked := false;
        return Err(draft.error);
      }
      var n := AppendLine(draft.value);
      locked := false;
      if n.Err? {
        return Err(n.error);
      }
      r := Ok(DidPropose(IdOf(n.value)));
    }

    /** The card first, the confirm row last. */
    method ConfirmProposal(req: Request) returns (r: Result<Outcome, EditErr>)
      requires req.ConfirmReq?
      modifies this
      ensures locked == old(locked)
      ensures old(locked) ==> r == Err(Defect) && Abstract() == old(Abstract())
      ensures !old(locked) ==> r == Answer(h, old(Abstract()), req) && Abstract() == After(h, old(Abstract()), req)
    {
      hide Admissible, FindPending, IsNoop, Digest16, ReadStream, EncodeCard, Appended, AppendResult;
      if !Admissible(req) || locked {
        return Err(Defect);
      }
      locked := true;
      var p := Find(req.id);
      if p.Err? {
        locked := false;
        return Err(p.error);
      }
      var read := ReadStream(stream);
      if read.Err? {
        locked := false;
        return Err(read.error);
      }
      if Digest16(h, read.value.0) != p.value.prior16 {
        locked := false;
        return Err(Stale);
      }
      if IsNoop(read.value.1, p.value.card) {
        locked := false;
        return Err(Noop);
      }
      if req.warden.unreadable > 0 {
        locked := false;
        return Err(Defect);
      }
      if req.warden.active.None? {
        locked := false;
        return Err(GateClosed);
      }
      stream := Some(Stored(stream) + (EncodeCard(p.value.card) + "\n"));
      if ReadStream(stream).Err? {
        locked := false;
        return Err(Defect);
      }
      var n := AppendLine(Resolve(req.id, Confirm, req.actor, req.actorKind));
      locked := false;
      if n.Err? {
        return Err(n.error);
      }
      r := Ok(DidConfirm(req.id, n.value, p.value.card.Key(), req.warden.active.value));
    }

    method RefuseProposal(req: Request) returns (r: Result<Outcome, EditErr>)
      requires req.RefuseReq?
      modifies this
      ensures locked == old(locked)
      ensures old(locked) ==> r == Err(Defect) && Abstract() == old(Abstract())
      ensures !old(locked) ==> r == Answer(h, old(Abstract()), req) && Abstract() == After(h, old(Abstract()), req)
    {
      hide Admissible, FindPending, Appended, AppendResult;
      if !Admissible(req) || locked {
        return Err(Defect);
      }
      locked := true;
      var p := Find(req.id);
      if p.Err? {
        locked := false;
        return Err(p.error);
      }
      var n := AppendLine(Resolve(req.id, Refuse, req.actor, req.actorKind));
      locked := false;
      if n.Err? {
        return Err(n.error);
      }
      r := Ok(DidRefuse(n.value));
    }
  }

  // ---------- a verb is a run of the steps ----------

  function Steps(h: Digest, s: State, req: Request): seq<Event>
    requires s.phase.Free?
  {
    if !Admissible(req) then []
    else
      var checked := Next(h, Next(h, s, Begin(req)), Check);
      match checked.phase
      case Journaling(_) => [Begin(req), Check, Record]
      case Applying(_, _, _) =>
        if Next(h, Next(h, checked, Apply), Load).phase.Free? then [Begin(req), Check, Apply, Load]
        else [Begin(req), Check, Apply, Load, Record]
      case _ => [Begin(req), Check]
  }

  lemma RunOne(h: Digest, s: State, e: Event, es: seq<Event>)
    requires Enabled(s, e)
    ensures Run(h, s, [e] + es) == Run(h, Next(h, s, e), es)
  {
    assert ([e] + es)[1..] == es;
  }

  lemma RunSteps(h: Digest, s: State, a: Event, b: Event, rest: seq<Event>)
    requires Enabled(s, a) && Enabled(Next(h, s, a), b)
    ensures Run(h, s, [a, b] + rest) == Run(h, Next(h, Next(h, s, a), b), rest)
  {
    hide Run, Next, Enabled;
    assert [a, b] + rest == [a] + ([b] + rest);
    RunOne(h, s, a, [b] + rest);
    RunOne(h, Next(h, s, a), b, rest);
  }

  /** With nobody in between, the steps of a request end with the lock free and what the verb leaves. */
  lemma {:induction false} VerbIsRun(h: Digest, s: State, req: Request)
    requires s.phase.Free?
    ensures var t := Run(h, s, Steps(h, s, req));
      && t.Some? && t.value.phase.Free?
      && Store(t.value.stream, t.value.journal) == After(h, Store(s.stream, s.journal), req)
  {
    hide Run, CheckPropose, CheckConfirm, FindPending, ReadStream, Appended, EncodeCard, Admissible;
    RunEmpty(h, s);
    if Admissible(req) {
      var checked := Next(h, Next(h, s, Begin(req)), Check);
      var es := Steps(h, s, req);
      RunSteps(h, s, Begin(req), Check, es[2..]);
      assert [Begin(req), Check] + es[2..] == es;
      if checked.phase.Journaling? {
        assert es[2..] == [Record] + [];
        RunOne(h, checked, Record, []);
        RunEmpty(h, Next(h, checked, Record));
      } else if checked.phase.Applying? {
        var loaded := Next(h, Next(h, checked, Apply), Load);
        RunSteps(h, checked, Apply, Load, es[4..]);
        assert [Apply, Load] + es[4..] == es[2..];
        if loaded.phase.Free? {
          assert es[4..] == [];
          RunEmpty(h, loaded);
        } else {
          assert es[4..] == [Record] + [];
          RunOne(h, loaded, Record, []);
          RunEmpty(h, Next(h, loaded, Record));
        }
      } else {
        assert es[2..] == [];
        RunEmpty(h, checked);
      }
    }
  }

  lemma RunEmpty(h: Digest, s: State)
    ensures Run(h, s, []) == Some(s)
  {
  }
}
