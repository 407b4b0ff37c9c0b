/**
 A proposal that a row has resolved, over every run of the edit protocol: crates/caddis-deliberate/src/edits.rs.
 */
module EditRuns {
  import opened Text
  import opened CardStream
  import opened EditJournal
  import opened JournalLaws
  import opened Edits

  // ---------- a resolved proposal is never applied ----------

  lemma {:induction false} ParsedGrows(lines: seq<string>, more: seq<string>)
    ensures ParseLinesOf(lines).rows <= ParseLinesOf(lines + more).rows
    decreases |more|
  {
    hide ParseRow, Trim;
    if more == [] {
      assert lines + more == lines;
    } else {
      var front := more[..|more| - 1];
      ParsedGrows(lines, front);
      assert (lines + more)[..|lines + more| - 1] == lines + front;
    }
  }

  /** Every row of the journal stays in it. */
  lemma JournalKeeps(h: Digest, s: State, e: Event)
    requires Enabled(s, e) && Terminated(s.journal)
    ensures ParseJournal(s.journal).rows <= ParseJournal(Next(h, s, e).journal).rows
  {
    hide Lines, ParseLinesOf, ParseStream, EncodeCard;
    var t := Next(h, s, e);
    if t.journal != s.journal {
      var line := LineFor(s.journal, s.phase.draft);
      hide LineFor;
      LinesAppend(s.journal, line);
      ParsedGrows(Lines(s.journal), Lines(line));
    }
  }

  /** A card is applied for a proposal that nothing has resolved. */
  lemma AppliedIsPending(h: Digest, s: State)
    requires Inv(h, s) && Enabled(s, Apply)
    ensures var t := Next(h, s, Event.Apply);
      |t.applied| == |s.applied| + 1 && !HasResolve(ParseJournal(s.journal).rows, t.applied[|s.applied|].id)
  {
    var m :| InvWith(h, s, m);
    hide ParseJournal, Fold, AllPinned, ConfirmedApplied, HasResolve, HasPropose, ResolvedAs, ProposeRow, EncodeCard;
    FoldLaw(ParseJournal(s.journal).rows);
    assert Tells(ParseJournal(s.journal).rows, s.phase.draft.id, m[s.phase.draft.id]);
  }

  lemma InvTerminated(h: Digest, s: State)
    requires Inv(h, s)
    ensures Terminated(s.journal)
  {
  }

  lemma GrownResolve(rows: seq<Row>, more: seq<Row>, id: string)
    requires HasResolve(rows, id) && rows <= more
    ensures HasResolve(more, id)
  {
    var r :| ResolveRow(rows, r, id);
    assert ResolveRow(more, r, id);
  }

  lemma {:induction false} ResolvedRun(h: Digest, s: State, es: seq<Event>, id: string)
    requires Inv(h, s) && Hexes(h) && Run(h, s, es).Some? && HasResolve(ParseJournal(s.journal).rows, id)
    ensures var t := Run(h, s, es).value;
      s.applied <= t.applied && forall i :: |s.applied| <= i < |t.applied| ==> t.applied[i].id != id
    decreases |es|
  {
    hide Inv, Enabled, Hexes, HasResolve, ParseJournal, EncodeCard, ReadStream;
    if es != [] {
      var e := es[0];
      var s1 := Next(h, s, e);
      InvTerminated(h, s);
      JournalKeeps(h, s, e);
      GrownResolve(ParseJournal(s.journal).rows, ParseJournal(s1.journal).rows, id);
      Step(h, s, e);
      if e.Apply? {
        AppliedIsPending(h, s);
      }
      hide Next;
      AppliedGrows(h, s, e);
      ResolvedRun(h, s1, es[1..], id);
    }
  }

  lemma AppliedGrows(h: Digest, s: State, e: Event)
    requires Enabled(s, e)
    ensures s.applied <= Next(h, s, e).applied
    ensures !e.Apply? ==> Next(h, s, e).applied == s.applied
  {
    hide EncodeCard, ReadStream, Appended, Edits.Checked;
  }

  /**
   Over every run: once a confirm or a refuse row of an id is in the journal, no card is ever applied for
   that id again, whatever the verbs, the other writers, crashes and unlocks do.
   */
  lemma {:induction false} ResolvedIsFinal(h: Digest, s: State, before: seq<Event>, later: seq<Event>, id: string)
    requires Initial(s) && Hexes(h) && Run(h, s, before).Some? && Run(h, Run(h, s, before).value, later).Some?
    requires HasResolve(ParseJournal(Run(h, s, before).value.journal).rows, id)
    ensures var t := Run(h, s, before).value;
      var u := Run(h, t, later).value;
      t.applied <= u.applied && forall i :: |t.applied| <= i < |u.applied| ==> u.applied[i].id != id
  {
    assert InvWith(h, s, Fold(ParseJournal(s.journal).rows).value);
    hide Run, Inv, ParseJournal, HasResolve, Initial;
    RunKeeps(h, s, before);
    ResolvedRun(h, Run(h, s, before).value, later, id);
  }
}
