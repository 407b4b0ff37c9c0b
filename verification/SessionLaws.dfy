/**
 Every answer of convening and re-dispatching, said of the cards, the gate and the seats:
 crates/caddis-deliberate/src/council.rs and quorum.rs.
 */
module SessionLaws {
  import opened Wrappers
  import opened Text
  import opened Json
  import opened Decimals
  import opened JsonRoundTrip
  import opened Seats
  import D = Disjoint
  import opened SeatLaws
  import opened Protocols
  import opened Warden
  import opened Sessions

  // ---------- cards, pins and the gate ----------

  ghost function KindText(k: Kind): string {
    if k.Council? then "council" else "quorum"
  }

  /** What a card's canonical text is, read as JSON. */
  ghost function CardShape(p: Protocol): Value {
    Obj([
      Member("version", Num(Int(p.version))), Member("kind", Str(KindText(p.kind))),
      Member("stages", Arr(seq(|p.stages|, i requires 0 <= i < |p.stages| => Str(p.stages[i])))),
      Member("floors", Obj([
        Member("panel_size", Num(Int(p.floors.panelSize))), Member("min_families", Num(Int(p.floors.minFamilies))),
        Member("min_non_chinese", Num(Int(p.floors.minNonChinese)))]))])
  }

  lemma {:induction false} CanonicalSays(p: Protocol)
    requires Bytes(Canonical(p)) <= MAX_BYTES
    ensures Parse(Canonical(p)) == Ok(CardShape(p))
  {
    assert StageValues(p.stages) == seq(|p.stages|, i requires 0 <= i < |p.stages| => Str(p.stages[i]));
    assert CardShape(p) == Obj(CardMembers(p));
    hide Canonical, CardMembers, CardShape, Parse, Bytes, WriteValue, Nest;
    CanonicalIsWritten(p);
    RoundTrip(Obj(CardMembers(p)));
  }

  /** A card of the kind, with its seven stages in order and floors a panel can meet. */
  ghost predicate Convenable(p: Protocol, kind: Kind) {
    && p.kind == kind && p.version >= 1
    && p.stages == ["convene", if kind.Council? then "panel" else "pool", "dispatch", "collect", "integrate", "verdict",
                    "ledger"]
    && 1 <= p.floors.minFamilies <= p.floors.panelSize && 1 <= p.floors.minNonChinese <= p.floors.panelSize
    && (kind.Quorum? ==> p.floors.panelSize >= 2)
  }

  lemma ConvenableMeans(p: Protocol)
    ensures ValidCouncilCard(p) <==> Convenable(p, Council)
    ensures ValidQuorumCard(p) <==> Convenable(p, Quorum)
  {
  }

  /** The warden has the actor's card, whose rows are all readable, and this is the receipt. */
  ghost predicate Admitted(actor: string, warden: CardState, receipt: Receipt) {
    actor != "" && warden.unreadable == 0 && warden.active == Some(receipt.wardenCard) && receipt.actor == actor
  }

  ghost predicate GateRefuses(e: Refusal, actor: string, warden: CardState) {
    match e
    case Defect => actor == "" || warden.unreadable > 0
    case GateClosed(name) => actor == name != "" && warden.unreadable == 0 && warden.active.None?
    case _ => false
  }

  lemma GateMeans(actor: string, warden: CardState)
    ensures forall receipt :: Gate(actor, warden) == Ok(receipt) <==> Admitted(actor, warden, receipt)
    ensures forall e :: Gate(actor, warden) == Err(e) <==> GateRefuses(e, actor, warden)
  {
  }

  // ---------- councils ----------

  /** The best live candidates, as many as the card asks for, which meet its floors. */
  ghost predicate BestPanel(panel: Panel, candidates: seq<Seat>, floors: Floors) {
    SeatLaws.PanelAnswer(Ok(panel), candidates, floors)
  }

  /** What becomes of a council once its cards are in order: the gate first, then the panel. */
  ghost predicate Opens(r: Result<CouncilSession, Refusal>, h: Digest, id: string, task: string, stakes: Stakes,
      p: Protocol, candidates: seq<Seat>, actor: string, warden: CardState, rerunOf: Option<string>)
  {
    match r
    case Ok(s) =>
      && Admitted(actor, warden, s.gate) && BestPanel(s.convening.panel, candidates, p.floors)
      && s == CouncilSession(Convening(id, task, h(Canonical(p)), s.convening.panel), stakes, s.gate, rerunOf)
    case Err(PanelRefused(e)) =>
      && (exists receipt :: Admitted(actor, warden, receipt))
      && SeatLaws.PanelAnswer(Err(e), candidates, p.floors)
    case Err(e) => GateRefuses(e, actor, warden)
  }

  ghost predicate ConveneAnswer(r: Result<CouncilSession, Refusal>, h: Digest, id: string, task: string,
      stakes: Stakes, p: Protocol, candidates: seq<Seat>, actor: string, warden: CardState)
  {
    if id == "" || task == "" then r == Err(Defect)
    else if !Convenable(p, Council) then r == Err(CardInvalid)
    else Opens(r, h, id, task, stakes, p, candidates, actor, warden, None)
  }

  /**
   A re-dispatch is refused for a card that is not convenable, for an archived card that is not the one
   the session was pinned to, for a version that does not rise, for a pin that does not change; otherwise
   it opens as any council does, under the new card, with a new id that names the version.
   */
  ghost predicate RedispatchAnswer(r: Result<CouncilSession, Refusal>, h: Digest, s: CouncilSession,
      archived: Protocol, newer: Protocol, candidates: seq<Seat>, actor: string, warden: CardState)
  {
    if !Convenable(archived, Council) then r == Err(CardInvalid)
    else if h(Canonical(archived)) != s.convening.pin then r == Err(Defect)
    else if !Convenable(newer, Council) then r == Err(CardInvalid)
    else if newer.version <= archived.version then r == Err(VersionNotBumped(archived.version, newer.version))
    else if h(Canonical(newer)) == s.convening.pin then r == Err(SameCard(s.convening.pin))
    else
      Opens(r, h, s.convening.id + "#r" + Dec(newer.version), s.convening.task, s.stakes, newer, candidates, actor,
        warden, Some(s.convening.id))
  }

  lemma OpensIs(r: Result<CouncilSession, Refusal>, h: Digest, id: string, task: string, stakes: Stakes,
      p: Protocol, candidates: seq<Seat>, actor: string, warden: CardState, rerunOf: Option<string>,
      gate: Result<Receipt, Refusal>, panel: Result<Panel, PanelErr>)
    requires gate == Gate(actor, warden) && panel == ConstructPanel(candidates, p.floors)
    requires r == match gate
                  case Err(e) => Err(e)
                  case Ok(receipt) =>
                    match panel
                    case Err(e) => Err(PanelRefused(e))
                    case Ok(seats) =>
                      Ok(CouncilSession(Convening(id, task, Pin(h, p), seats), stakes, receipt, rerunOf))
    ensures Opens(r, h, id, task, stakes, p, candidates, actor, warden, rerunOf)
  {
    hide SeatLaws.PanelAnswer, ConstructPanel, Canonical;
    GateMeans(actor, warden);
    PanelAnswers(candidates, p.floors);
  }

  lemma SeatedOpens(h: Digest, id: string, task: string, p: Protocol, candidates: seq<Seat>)
    ensures var r := ConstructPanel(candidates, p.floors);
      r.Ok? ==> OpenConvening(h, id, task, p, r.value) == Ok(Convening(id, task, Pin(h, p), r.value))
  {
    hide ConstructPanel, CheckFloors, Canonical;
    if ConstructPanel(candidates, p.floors).Ok? {
      ConstructedPanelOpens(h, id, task, p, candidates);
    }
  }

  /** Every answer of convening a council. */
  lemma {:induction false} ConveneAnswers(h: Digest, id: string, task: string, stakes: Stakes, p: Protocol,
      candidates: seq<Seat>, actor: string, warden: CardState)
    ensures ConveneAnswer(ConveneCouncil(h, id, task, stakes, p, candidates, actor, warden), h, id, task, stakes, p,
      candidates, actor, warden)
  {
    ConvenableMeans(p);
    SeatedOpens(h, id, task, p, candidates);
    hide Convenable, ValidCouncilCard, ConstructPanel, OpenConvening, Gate, Opens, Pin;
    if id != "" && task != "" && Convenable(p, Council) {
      OpensIs(ConveneCouncil(h, id, task, stakes, p, candidates, actor, warden), h, id, task, stakes, p, candidates,
        actor, warden, None, Gate(actor, warden), ConstructPanel(candidates, p.floors));
    }
  }

  /** Every answer of re-dispatching a council. */
  lemma {:induction false} RedispatchAnswers(h: Digest, s: CouncilSession, archived: Protocol, newer: Protocol,
      candidates: seq<Seat>, actor: string, warden: CardState)
    ensures RedispatchAnswer(RedispatchCouncil(h, s, archived, newer, candidates, actor, warden), h, s, archived,
      newer, candidates, actor, warden)
  {
    ConvenableMeans(archived);
    ConvenableMeans(newer);
    var id := s.convening.id + "#r" + Dec(newer.version);
    SeatedOpens(h, id, s.convening.task, newer, candidates);
    hide Convenable, ValidCouncilCard, ConstructPanel, OpenConvening, Gate, Opens, Canonical, Dec;
    if Convenable(archived, Council) && h(Canonical(archived)) == s.convening.pin && Convenable(newer, Council)
      && newer.version > archived.version && h(Canonical(newer)) != s.convening.pin {
      OpensIs(RedispatchCouncil(h, s, archived, newer, candidates, actor, warden), h, id, s.convening.task, s.stakes,
        newer, candidates, actor, warden, Some(s.convening.id), Gate(actor, warden),
        ConstructPanel(candidates, newer.floors));
    }
  }

  /**
   A re-dispatch succeeds exactly when both cards are convenable, the archived one is the session's, the
   version rises, the pin changes, the gate is open and the new card's floors can be met.
   */
  lemma {:induction false} RedispatchSucceeds(h: Digest, s: CouncilSession, archived: Protocol, newer: Protocol,
      candidates: seq<Seat>, actor: string, warden: CardState)
    ensures RedispatchCouncil(h, s, archived, newer, candidates, actor, warden).Ok? <==>
      && Convenable(archived, Council) && h(Canonical(archived)) == s.convening.pin && Convenable(newer, Council)
      && newer.version > archived.version && h(Canonical(newer)) != s.convening.pin
      && (exists receipt :: Admitted(actor, warden, receipt)) && ConstructPanel(candidates, newer.floors).Ok?
  {
    RedispatchAnswers(h, s, archived, newer, candidates, actor, warden);
    GateMeans(actor, warden);
    SeatedOpens(h, s.convening.id + "#r" + Dec(newer.version), s.convening.task, newer, candidates);
    ConvenableMeans(archived);
    ConvenableMeans(newer);
    hide Convenable, ValidCouncilCard, ConstructPanel, OpenConvening, Gate, Canonical, Dec, Admitted, BestPanel;
    hide SeatLaws.PanelAnswer, GateRefuses;
    if Gate(actor, warden).Ok? {
      assert Admitted(actor, warden, Gate(actor, warden).value);
    }
  }

  // ---------- quorums ----------

  /** A pool off the council, or with an approval one that may draw on the approved of the council's lanes. */
  ghost predicate Selected(pool: seq<Seat>, audit: Option<D.Audit>, council: Panel, candidates: seq<Seat>,
      approval: Option<D.Approval>, floors: Floors)
  {
    match approval
    case None => audit.None? && StrictAnswer(Ok(pool), council, candidates, floors.panelSize, floors)
    case Some(a) =>
      && audit.Some?
      && ReserveAnswer(Ok(D.ReservePool(pool, audit.value)), council, candidates, floors.panelSize, floors, a)
  }

  ghost predicate SelectionRefused(e: Refusal, council: Panel, candidates: seq<Seat>, approval: Option<D.Approval>,
      floors: Floors)
  {
    match approval
    case None =>
      e.PoolRefused? && StrictAnswer(Err(e.poolErr), council, candidates, floors.panelSize, floors)
    case Some(a) =>
      match e
      case PoolRefused(Floored(f)) =>
        || ReserveAnswer(Err(D.Strict(D.Floored(f))), council, candidates, floors.panelSize, floors, a)
        || ReserveAnswer(Err(D.PoolFloors(f)), council, candidates, floors.panelSize, floors, a)
      case Exhausted(r) =>
        r.ReserveExhausted? && ReserveAnswer(Err(r), council, candidates, floors.panelSize, floors, a)
      case Defect => floors.panelSize == 0 || Trim(a.id) == ""
      case _ => false
  }

  /** The answers a selection with the reserve never gives, and when it gives the two about its inputs. */
  lemma ReserveCases(r: Result<D.ReservePool, D.ReserveErr>, council: Panel, candidates: seq<Seat>, size: nat,
      floors: Floors, approval: D.Approval)
    requires ReserveAnswer(r, council, candidates, size, floors, approval)
    ensures r.Err? && r.error.Strict? ==> r.error.e.Floored?
    ensures r.Err? ==> !r.error.PoolOverlap?
    ensures r.Err? && r.error.NoPool? ==> size == 0
    ensures r.Err? && r.error.BlankApproval? ==> Trim(approval.id) == ""
  {
    hide Misses, Starved, Supplied, Waiting, SeatLaws.Places, Trim;
  }

  lemma StrictSelection(council: Panel, candidates: seq<Seat>, floors: Floors)
    ensures var r := SelectPool(council, candidates, None, floors);
      && (r.Ok? ==> Selected(r.value.0, r.value.1, council, candidates, None, floors))
      && (r.Err? ==> SelectionRefused(r.error, council, candidates, None, floors))
  {
    hide D.StrictPool, StrictAnswer;
    StrictAnswers(council, candidates, floors.panelSize, floors);
  }

  lemma ReserveSelection(council: Panel, candidates: seq<Seat>, a: D.Approval, floors: Floors)
    ensures var r := SelectPool(council, candidates, Some(a), floors);
      && (r.Ok? ==> Selected(r.value.0, r.value.1, council, candidates, Some(a), floors))
      && (r.Err? ==> SelectionRefused(r.error, council, candidates, Some(a), floors))
  {
    hide D.WithReserve, ReserveAnswer, Trim;
    ReserveAnswers(council, candidates, floors.panelSize, floors, a);
    var r := D.WithReserve(council, candidates, floors.panelSize, floors, a);
    ReserveCases(r, council, candidates, floors.panelSize, floors, a);
    if r.Ok? {
      assert r == Ok(D.ReservePool(r.value.pool, r.value.audit));
    } else {
      match r.error
      case Strict(e) => assert e == D.Floored(e.e);
      case _ =>
    }
  }

  lemma SelectionAnswers(council: Panel, candidates: seq<Seat>, approval: Option<D.Approval>, floors: Floors)
    ensures var r := SelectPool(council, candidates, approval, floors);
      && (r.Ok? ==> Selected(r.value.0, r.value.1, council, candidates, approval, floors))
      && (r.Err? ==> SelectionRefused(r.error, council, candidates, approval, floors))
  {
    hide SelectPool, Selected, SelectionRefused;
    match approval
    case None => StrictSelection(council, candidates, floors);
    case Some(a) => ReserveSelection(council, candidates, a, floors);
  }

  ghost predicate QuorumOpens(r: Result<QuorumSession, Refusal>, h: Digest, id: string, task: string, council: string,
      stakes: Stakes, panel: Panel, p: Protocol, candidates: seq<Seat>, approval: Option<D.Approval>, actor: string,
      warden: CardState, rerunOf: Option<string>)
  {
    match r
    case Ok(s) =>
      && Admitted(actor, warden, s.gate) && Selected(s.pool, s.audit, panel, candidates, approval, p.floors)
      && s == QuorumSession(id, task, h(Canonical(p)), s.pool, council, stakes, s.gate, rerunOf, s.audit)
    case Err(e) =>
      || GateRefuses(e, actor, warden)
      || ((exists receipt :: Admitted(actor, warden, receipt))
          && SelectionRefused(e, panel, candidates, approval, p.floors))
  }

  lemma QuorumOpensIs(r: Result<QuorumSession, Refusal>, h: Digest, id: string, task: string, council: string,
      stakes: Stakes, panel: Panel, p: Protocol, candidates: seq<Seat>, approval: Option<D.Approval>, actor: string,
      warden: CardState, rerunOf: Option<string>, gate: Result<Receipt, Refusal>,
      selected: Result<(seq<Seat>, Option<D.Audit>), Refusal>)
    requires gate == Gate(actor, warden) && selected == SelectPool(panel, candidates, approval, p.floors)
    requires r == match gate
                  case Err(e) => Err(e)
                  case Ok(receipt) =>
                    match selected
                    case Err(e) => Err(e)
                    case Ok(pool) =>
                      Ok(QuorumSession(id, task, Pin(h, p), pool.0, council, stakes, receipt, rerunOf, pool.1))
    ensures QuorumOpens(r, h, id, task, council, stakes, panel, p, candidates, approval, actor, warden, rerunOf)
  {
    hide Selected, SelectionRefused, SelectPool, Canonical;
    GateMeans(actor, warden);
    SelectionAnswers(panel, candidates, approval, p.floors);
  }

  ghost predicate ConveneQuorumAnswer(r: Result<QuorumSession, Refusal>, h: Digest, id: string,
      council: CouncilSession, p: Protocol, candidates: seq<Seat>, approval: Option<D.Approval>, actor: string,
      warden: CardState)
  {
    if id == "" || council.convening.task == "" then r == Err(Defect)
    else if !Convenable(p, Quorum) then r == Err(CardInvalid)
    else
      QuorumOpens(r, h, id, council.convening.task, council.convening.id, council.stakes, council.convening.panel, p,
        candidates, approval, actor, warden, None)
  }

  /** As for a council, and the council named must be the one the session was seated against. */
  ghost predicate RedispatchQuorumAnswer(r: Result<QuorumSession, Refusal>, h: Digest, s: QuorumSession,
      archived: Protocol, newer: Protocol, council: CouncilSession, candidates: seq<Seat>,
      approval: Option<D.Approval>, actor: string, warden: CardState)
  {
    if !Convenable(archived, Quorum) then r == Err(CardInvalid)
    else if h(Canonical(archived)) != s.pin || council.convening.id != s.council then r == Err(Defect)
    else if !Convenable(newer, Quorum) then r == Err(CardInvalid)
    else if newer.version <= archived.version then r == Err(VersionNotBumped(archived.version, newer.version))
    else if h(Canonical(newer)) == s.pin then r == Err(SameCard(s.pin))
    else
      QuorumOpens(r, h, s.id + "#r" + Dec(newer.version), s.task, s.council, s.stakes, council.convening.panel, newer,
        candidates, approval, actor, warden, Some(s.id))
  }

  /** Every answer of convening a quorum. */
  lemma {:induction false} ConveneQuorumAnswers(h: Digest, id: string, council: CouncilSession, p: Protocol,
      candidates: seq<Seat>, approval: Option<D.Approval>, actor: string, warden: CardState)
    ensures ConveneQuorumAnswer(ConveneQuorum(h, id, council, p, candidates, approval, actor, warden), h, id, council,
      p, candidates, approval, actor, warden)
  {
    ConvenableMeans(p);
    hide Convenable, ValidQuorumCard, SelectPool, Gate, QuorumOpens, Pin;
    if id != "" && council.convening.task != "" && Convenable(p, Quorum) {
      QuorumOpensIs(ConveneQuorum(h, id, council, p, candidates, approval, actor, warden), h, id,
        council.convening.task, council.convening.id, council.stakes, council.convening.panel, p,
        candidates, approval, actor, warden, None, Gate(actor, warden),
        SelectPool(council.convening.panel, candidates, approval, p.floors));
    }
  }

  /** Every answer of re-dispatching a quorum. */
  lemma {:induction false} RedispatchQuorumAnswers(h: Digest, s: QuorumSession, archived: Protocol, newer: Protocol,
      council: CouncilSession, candidates: seq<Seat>, approval: Option<D.Approval>, actor: string,
      warden: CardState)
    ensures RedispatchQuorumAnswer(
      RedispatchQuorum(h, s, archived, newer, council, candidates, approval, actor, warden), h, s, archived, newer,
      council, candidates, approval, actor, warden)
  {
    ConvenableMeans(archived);
    ConvenableMeans(newer);
    hide Convenable, ValidQuorumCard, SelectPool, Gate, QuorumOpens, Canonical, Dec;
    if Convenable(archived, Quorum) && h(Canonical(archived)) == s.pin && council.convening.id == s.council
      && Convenable(newer, Quorum) && newer.version > archived.version && h(Canonical(newer)) != s.pin {
      QuorumOpensIs(RedispatchQuorum(h, s, archived, newer, council, candidates, approval, actor, warden), h,
        s.id + "#r" + Dec(newer.version), s.task, s.council, s.stakes, council.convening.panel, newer, candidates,
        approval, actor, warden, Some(s.id), Gate(actor, warden),
        SelectPool(council.convening.panel, candidates, approval, newer.floors));
    }
  }
}
