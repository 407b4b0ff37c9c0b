/**
 What the rows of an edit journal say of its proposals, read off the rows themselves: when they fold and
 what became of each proposal. crates/caddis-deliberate/src/edits.rs.
 */
module JournalLaws {
  import opened Wrappers
  import opened EditJournal

  // ---------- what the rows say ----------

  ghost predicate ProposeRow(rows: seq<Row>, r: Row, id: string) {
    r in rows && r.Proposed? && r.id == id
  }

  ghost predicate ResolveRow(rows: seq<Row>, r: Row, id: string) {
    r in rows && r.Resolved? && r.id == id
  }

  ghost predicate HasPropose(rows: seq<Row>, id: string) {
    exists r :: ProposeRow(rows, r, id)
  }

  ghost predicate HasResolve(rows: seq<Row>, id: string) {
    exists r :: ResolveRow(rows, r, id)
  }

  ghost predicate ResolvedAs(rows: seq<Row>, id: string, resolution: Resolution, actor: string) {
    exists r :: ResolveRow(rows, r, id) && r.resolution == resolution && r.actor == actor
  }

  /** No id is proposed twice or resolved twice, and none is resolved before it is proposed. */
  ghost predicate Orderly(rows: seq<Row>) {
    && (forall i, j :: 0 <= i < j < |rows| && rows[i].id == rows[j].id ==> rows[i].Proposed? && rows[j].Resolved?)
    && (forall j :: 0 <= j < |rows| && rows[j].Resolved? ==> HasPropose(rows[..j], rows[j].id))
  }

  /** The entry is what the rows say of the id. */
  ghost predicate Tells(rows: seq<Row>, id: string, e: Entry) {
    && ProposeRow(rows, Proposed(e.seqNo, id, e.card, e.prior16, e.actor, e.actorKind), id)
    && (e.status == Pending <==> !HasResolve(rows, id))
    && (e.status == Pending <==> e.resolvedBy.None?)
    && (forall a :: e.status == Confirmed && e.resolvedBy == Some(a) <==> ResolvedAs(rows, id, Confirm, a))
    && (forall a :: e.status == Refused && e.resolvedBy == Some(a) <==> ResolvedAs(rows, id, Refuse, a))
  }

  ghost predicate Described(rows: seq<Row>, m: Proposals) {
    forall id :: (id in m <==> HasPropose(rows, id)) && (id in m ==> Tells(rows, id, m[id]))
  }

  // ---------- one more row ----------

  lemma RowSnoc(rows: seq<Row>, last: Row, id: string)
    ensures HasPropose(rows + [last], id) <==> HasPropose(rows, id) || (last.Proposed? && last.id == id)
    ensures HasResolve(rows + [last], id) <==> HasResolve(rows, id) || (last.Resolved? && last.id == id)
  {
    assert forall r :: r in rows + [last] <==> r in rows || r == last;
    if last.Proposed? && last.id == id {
      assert ProposeRow(rows + [last], last, id);
    }
    if last.Resolved? && last.id == id {
      assert ResolveRow(rows + [last], last, id);
    }
    forall r
      ensures ProposeRow(rows + [last], r, id) <==> ProposeRow(rows, r, id) || (r == last && r.Proposed? && r.id == id)
    {
    }
    forall r
      ensures ResolveRow(rows + [last], r, id) <==> ResolveRow(rows, r, id) || (r == last && r.Resolved? && r.id == id)
    {
    }
  }

  lemma ResolvedSnoc(rows: seq<Row>, last: Row, id: string, how: Resolution, a: string)
    ensures ResolvedAs(rows + [last], id, how, a) <==>
      ResolvedAs(rows, id, how, a) || (last.Resolved? && last.id == id && last.resolution == how && last.actor == a)
  {
    if last.Resolved? && last.id == id && last.resolution == how && last.actor == a {
      assert ResolveRow(rows + [last], last, id);
    }
    forall r
      ensures ResolveRow(rows + [last], r, id) <==> ResolveRow(rows, r, id) || (r == last && r.Resolved? && r.id == id)
    {
    }
  }

  /** What makes a list with one more row orderly. */
  ghost predicate Follows(rows: seq<Row>, last: Row) {
    if last.Proposed? then !HasPropose(rows, last.id) && !HasResolve(rows, last.id)
    else HasPropose(rows, last.id) && !HasResolve(rows, last.id)
  }

  lemma OrderlySnoc(rows: seq<Row>, last: Row)
    ensures Orderly(rows + [last]) <==> Orderly(rows) && Follows(rows, last)
  {
    var all := rows + [last];
    if Orderly(all) {
      OrderlyFront(rows, last);
    }
    if Orderly(rows) && Follows(rows, last) {
      forall i, j | 0 <= i < j < |all| && all[i].id == all[j].id ensures all[i].Proposed? && all[j].Resolved? {
        if j == |rows| {
          assert all[i] == rows[i] && rows[i] in rows;
          assert all[i].Proposed? ==> ProposeRow(rows, rows[i], last.id);
          assert all[i].Resolved? ==> ResolveRow(rows, rows[i], last.id);
        } else {
          assert all[i] == rows[i] && all[j] == rows[j];
        }
      }
      forall j | 0 <= j < |all| && all[j].Resolved? ensures HasPropose(all[..j], all[j].id) {
        assert all[..j] == rows[..j];
        assert rows[..|rows|] == rows;
      }
    }
  }

  lemma OrderlyFront(rows: seq<Row>, last: Row)
    requires Orderly(rows + [last])
    ensures Orderly(rows) && Follows(rows, last)
  {
    var all := rows + [last];
    assert forall i :: 0 <= i < |rows| ==> all[i] == rows[i];
    assert all[|rows|] == last && all[..|rows|] == rows;
    forall j | 0 <= j < |rows| && rows[j].Resolved? ensures HasPropose(rows[..j], rows[j].id) {
      assert all[..j] == rows[..j];
    }
    forall r | r in rows && r.id == last.id ensures r.Proposed? && last.Resolved? {
      var i :| 0 <= i < |rows| && rows[i] == r;
      assert all[i] == r;
    }
  }

  // ---------- the fold ----------

  lemma DescribedNone()
    ensures Described([], map[])
  {
  }

  lemma Unresolved(rows: seq<Row>, id: string)
    requires !HasResolve(rows, id)
    ensures forall how, a :: !ResolvedAs(rows, id, how, a)
  {
    forall r ensures !ResolveRow(rows, r, id) {
    }
  }

  lemma ResolvedAsSnoc(rows: seq<Row>, last: Row, id: string)
    ensures last.id != id || last.Proposed? ==>
      forall how, a :: ResolvedAs(rows + [last], id, how, a) <==> ResolvedAs(rows, id, how, a)
  {
    forall how, a | last.id != id || last.Proposed?
      ensures ResolvedAs(rows + [last], id, how, a) <==> ResolvedAs(rows, id, how, a)
    {
      ResolvedSnoc(rows, last, id, how, a);
    }
  }

  /** A row of another id changes nothing for this one. */
  lemma TellsStill(rows: seq<Row>, last: Row, id: string, e: Entry)
    requires Tells(rows, id, e) && last.id != id
    ensures Tells(rows + [last], id, e)
  {
    hide HasPropose, HasResolve, ResolvedAs;
    RowSnoc(rows, last, id);
    ResolvedAsSnoc(rows, last, id);
  }

  lemma TellsProposed(rows: seq<Row>, last: Row)
    requires last.Proposed? && !HasResolve(rows, last.id)
    ensures Tells(rows + [last], last.id,
      Entry(last.seqNo, last.card, last.prior16, last.actor, last.actorKind, Pending, None))
  {
    hide HasPropose, HasResolve, ResolvedAs;
    RowSnoc(rows, last, last.id);
    ResolvedAsSnoc(rows, last, last.id);
    Unresolved(rows, last.id);
  }

  lemma TellsResolved(rows: seq<Row>, last: Row, e: Entry)
    requires Tells(rows, last.id, e) && last.Resolved? && e.status == Pending
    ensures Tells(rows + [last], last.id,
      e.(status := if last.resolution.Confirm? then Confirmed else Refused, resolvedBy := Some(last.actor)))
  {
    hide HasPropose, HasResolve, ResolvedAs;
    RowSnoc(rows, last, last.id);
    Unresolved(rows, last.id);
    forall a ensures
      && (ResolvedAs(rows + [last], last.id, Confirm, a) <==> last.resolution == Confirm && last.actor == a)
      && (ResolvedAs(rows + [last], last.id, Refuse, a) <==> last.resolution == Refuse && last.actor == a)
    {
      ResolvedSnoc(rows, last, last.id, Confirm, a);
      ResolvedSnoc(rows, last, last.id, Refuse, a);
    }
  }

  lemma ProposeDescribes(rows: seq<Row>, m: Proposals, last: Row)
    requires Described(rows, m) && last.Proposed? && !HasResolve(rows, last.id) && last.id !in m
    ensures Apply(m, last).Some? && Described(rows + [last], Apply(m, last).value)
  {
    var n := Apply(m, last).value;
    hide HasPropose, HasResolve, ResolvedAs, Tells;
    forall id ensures (id in n <==> HasPropose(rows + [last], id)) && (id in n ==> Tells(rows + [last], id, n[id])) {
      RowSnoc(rows, last, id);
      if id == last.id {
        TellsProposed(rows, last);
      } else if id in m {
        TellsStill(rows, last, id, m[id]);
      }
    }
  }

  lemma ResolveDescribes(rows: seq<Row>, m: Proposals, last: Row)
    requires Described(rows, m) && last.Resolved? && last.id in m && m[last.id].status == Pending
    ensures Apply(m, last).Some? && Described(rows + [last], Apply(m, last).value)
  {
    var n := Apply(m, last).value;
    hide HasPropose, HasResolve, ResolvedAs, Tells;
    forall id ensures (id in n <==> HasPropose(rows + [last], id)) && (id in n ==> Tells(rows + [last], id, n[id])) {
      RowSnoc(rows, last, id);
      if id == last.id {
        TellsResolved(rows, last, m[id]);
      } else if id in m {
        TellsStill(rows, last, id, m[id]);
      }
    }
  }

  /**
   The rows fold exactly when they are orderly. The fold then holds the proposed ids and no other; each
   entry carries what its propose row says; it is confirmed or refused exactly when a confirm or a refuse
   row of its id is there, by that row's actor, and pending exactly when there is neither.
   */
  lemma {:induction false} FoldLaw(rows: seq<Row>)
    ensures Fold(rows).Some? <==> Orderly(rows)
    ensures Fold(rows).Some? ==> Described(rows, Fold(rows).value)
    decreases |rows|
  {
    hide Orderly, Described, Apply;
    if rows == [] {
      DescribedNone();
      NoRowsOrderly();
    } else {
      var front, last := rows[..|rows| - 1], rows[|rows| - 1];
      assert rows == front + [last];
      FoldLaw(front);
      OrderlySnoc(front, last);
      if Orderly(front) {
        FoldStep(front, Fold(front).value, last);
      }
    }
  }

  lemma NoRowsOrderly()
    ensures Orderly([]) && Fold([]) == Some(map[])
  {
  }

  lemma FoldStep(rows: seq<Row>, m: Proposals, last: Row)
    requires Described(rows, m) && Orderly(rows)
    ensures Apply(m, last).Some? <==> Follows(rows, last)
    ensures Apply(m, last).Some? ==> Described(rows + [last], Apply(m, last).value)
  {
    ResolvedIsProposed(rows, last.id);
    assert (last.id in m <==> HasPropose(rows, last.id)) && (last.id in m ==> Tells(rows, last.id, m[last.id]));
    hide Described, Orderly, HasPropose, HasResolve, ResolvedAs, ProposeRow;
    if Follows(rows, last) {
      if last.Proposed? {
        ProposeDescribes(rows, m, last);
      } else {
        ResolveDescribes(rows, m, last);
      }
    }
  }

  lemma ResolvedIsProposed(rows: seq<Row>, id: string)
    requires Orderly(rows)
    ensures HasResolve(rows, id) ==> HasPropose(rows, id)
  {
    if HasResolve(rows, id) {
      var r :| ResolveRow(rows, r, id);
      var j :| 0 <= j < |rows| && rows[j] == r;
      assert HasPropose(rows[..j], id);
      var p :| ProposeRow(rows[..j], p, id);
      assert ProposeRow(rows, p, id);
    }
  }
}
