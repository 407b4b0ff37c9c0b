/**
 Convening, gating and re-dispatching council and quorum sessions:
 crates/caddis-deliberate/src/council.rs, quorum.rs and the convening of protocol.rs. The warden gate
 is what it reports for the actor; the digest is a parameter.
 */
module Sessions {
  import opened Wrappers
  import opened Text
  import opened Seats
  import D = Disjoint
  import opened Protocols
  import opened Warden

  datatype Stakes = Small | Medium | Complex

  datatype Receipt = Receipt(actor: string, wardenCard: string)

  datatype Convening = Convening(id: string, task: string, pin: string, panel: Panel)

  datatype CouncilSession = CouncilSession(convening: Convening, stakes: Stakes, gate: Receipt, rerunOf: Option<string>)

  datatype QuorumSession = QuorumSession(
    id: string, task: string, pin: string, pool: seq<Seat>, council: string,
    stakes: Stakes, gate: Receipt, rerunOf: Option<string>, audit: Option<D.Audit>)

  datatype Refusal =
    | CardInvalid
    | GateClosed(actor: string)
    | PanelRefused(panelErr: PanelErr)
    | ConveningSize(have: nat, want: nat)
    | ConveningFloor(floorErr: PanelErr)
    | PoolRefused(poolErr: D.DisjointErr)
    | Exhausted(reserveErr: D.ReserveErr)
    | VersionNotBumped(version: nat, tryUse: nat)
    | SameCard(pin: string)
    | Defect

  // ---------- cards and the gate ----------

  const COUNCIL_STAGES := ["convene", "panel", "dispatch", "collect", "integrate", "verdict", "ledger"]
  const QUORUM_STAGES := ["convene", "pool", "dispatch", "collect", "integrate", "verdict", "ledger"]

  predicate SoundFloors(f: Floors) {
    && f.panelSize > 0 && f.minFamilies > 0 && f.minNonChinese > 0
    && f.minFamilies <= f.panelSize && f.minNonChinese <= f.panelSize
  }

  predicate ValidCouncilCard(p: Protocol) {
    p.kind.Council? && p.version > 0 && p.stages == COUNCIL_STAGES && SoundFloors(p.floors)
  }

  predicate ValidQuorumCard(p: Protocol) {
    p.kind.Quorum? && p.version > 0 && p.stages == QUORUM_STAGES && SoundFloors(p.floors) && p.floors.panelSize >= 2
  }

  function Gate(actor: string, warden: CardState): Result<Receipt, Refusal> {
    if actor == "" || warden.unreadable > 0 then Err(Defect)
    else
      match warden.active
      case None => Err(GateClosed(actor))
      case Some(card) => Ok(Receipt(actor, card))
  }

  // ---------- convening ----------

  function OpenConvening(h: Digest, id: string, task: string, p: Protocol, panel: Panel): Result<Convening, Refusal> {
    if |panel| != p.floors.panelSize then Err(ConveningSize(|panel|, p.floors.panelSize))
    else
      match CheckFloors(SeatsOf(panel), p.floors)
      case Some(e) => Err(ConveningFloor(e))
      case None => Ok(Convening(id, task, Pin(h, p), panel))
  }

  function SeatPanel(candidates: seq<Seat>, floors: Floors): Result<Panel, Refusal> {
    match ConstructPanel(candidates, floors)
    case Err(e) => Err(PanelRefused(e))
    case Ok(panel) => Ok(panel)
  }

  function ConveneCouncil(h: Digest, id: string, task: string, stakes: Stakes, p: Protocol, candidates: seq<Seat>,
      actor: string, warden: CardState): Result<CouncilSession, Refusal>
  {
    if id == "" || task == "" then Err(Defect)
    else if !ValidCouncilCard(p) then Err(CardInvalid)
    else
      var receipt :- Gate(actor, warden);
      var panel :- SeatPanel(candidates, p.floors);
      var convening :- OpenConvening(h, id, task, p, panel);
      Ok(CouncilSession(convening, stakes, receipt, None))
  }

  ghost function SelectPool(council: Panel, candidates: seq<Seat>, approval: Option<D.Approval>, floors: Floors)
    : Result<(seq<Seat>, Option<D.Audit>), Refusal>
  {
    match approval
    case None => (
      match D.StrictPool(council, candidates, floors.panelSize, floors)
      case Err(e) => Err(PoolRefused(e))
      case Ok(pool) => Ok((pool, None)))
    case Some(a) =>
      match D.WithReserve(council, candidates, floors.panelSize, floors, a)
      case Ok(selected) => Ok((selected.pool, Some(selected.audit)))
      case Err(e) =>
        match e
        case Strict(d) => Err(PoolRefused(d))
        case PoolFloors(f) => Err(PoolRefused(D.Floored(f)))
        case ReserveExhausted(_, _, _, _) => Err(Exhausted(e))
        case _ => Err(Defect)
  }

  ghost function ConveneQuorum(h: Digest, id: string, council: CouncilSession, p: Protocol, candidates: seq<Seat>,
      approval: Option<D.Approval>, actor: string, warden: CardState): Result<QuorumSession, Refusal>
  {
    if id == "" || council.convening.task == "" then Err(Defect)
    else if !ValidQuorumCard(p) then Err(CardInvalid)
    else
      var receipt :- Gate(actor, warden);
      var selected :- SelectPool(council.convening.panel, candidates, approval, p.floors);
      Ok(QuorumSession(id, council.convening.task, Pin(h, p), selected.0, council.convening.id,
        council.stakes, receipt, None, selected.1))
  }

  /** Every pool a quorum is seated with has the card's size and meets its floors, reserve or not. */
  lemma {:induction false} SelectedPool(council: Panel, candidates: seq<Seat>, approval: Option<D.Approval>,
      floors: Floors)
    ensures var r := SelectPool(council, candidates, approval, floors);
      r.Ok? ==> |r.value.0| == floors.panelSize && CheckFloors(r.value.0, floors).None?
  {
    D.StrictLaw(council, candidates, floors.panelSize, floors);
    if approval.Some? {
      var a := approval.value;
      var strict := D.StrictPool(council, candidates, floors.panelSize, floors);
      if floors.panelSize > 0 && Trim(a.id) != "" {
        if strict.Ok? {
          D.HealthyDay(council, candidates, floors.panelSize, floors, a);
        } else if strict.error.Insufficient? {
          D.DegradedDay(council, candidates, floors.panelSize, floors, a);
        }
      }
      hide D.StrictPool, D.ShapeDay, CheckFloors, D.OverlapWithin;
    }
    hide D.StrictPool, CheckFloors, D.WithReserve;
  }

  // ---------- re-dispatch ----------

  function RerunId(id: string, p: Protocol): string {
    id + "#r" + Dec(p.version)
  }

  /** The checks both bodies make between the archived card and the new one. */
  function CheckBump(h: Digest, pin: string, archived: Protocol, newer: Protocol): Option<Refusal> {
    if newer.version <= archived.version then Some(VersionNotBumped(archived.version, newer.version))
    else if Pin(h, newer) == pin then Some(SameCard(pin))
    else None
  }

  function RedispatchCouncil(h: Digest, s: CouncilSession, archived: Protocol, newer: Protocol,
      candidates: seq<Seat>, actor: string, warden: CardState): Result<CouncilSession, Refusal>
  {
    if !ValidCouncilCard(archived) then Err(CardInvalid)
    else if Pin(h, archived) != s.convening.pin then Err(Defect)
    else if !ValidCouncilCard(newer) then Err(CardInvalid)
    else if CheckBump(h, s.convening.pin, archived, newer).Some? then
      Err(CheckBump(h, s.convening.pin, archived, newer).value)
    else
      var receipt :- Gate(actor, warden);
      var panel :- SeatPanel(candidates, newer.floors);
      var convening :- OpenConvening(h, RerunId(s.convening.id, newer), s.convening.task, newer, panel);
      Ok(CouncilSession(convening, s.stakes, receipt, Some(s.convening.id)))
  }

  ghost function RedispatchQuorum(h: Digest, s: QuorumSession, archived: Protocol, newer: Protocol,
      council: CouncilSession, candidates: seq<Seat>, approval: Option<D.Approval>, actor: string,
      warden: CardState): Result<QuorumSession, Refusal>
  {
    if !ValidQuorumCard(archived) then Err(CardInvalid)
    else if Pin(h, archived) != s.pin then Err(Defect)
    else if council.convening.id != s.council then Err(Defect)
    else if !ValidQuorumCard(newer) then Err(CardInvalid)
    else if CheckBump(h, s.pin, archived, newer).Some? then Err(CheckBump(h, s.pin, archived, newer).value)
    else
      var receipt :- Gate(actor, warden);
      var selected :- SelectPool(council.convening.panel, candidates, approval, newer.floors);
      Ok(QuorumSession(RerunId(s.id, newer), s.task, Pin(h, newer), selected.0, s.council,
        s.stakes, receipt, Some(s.id), selected.1))
  }

  /** A panel that was constructed is never refused by the convening's own re-proof. */
  lemma {:induction false} ConstructedPanelOpens(h: Digest, id: string, task: string, p: Protocol,
      candidates: seq<Seat>)
    requires ConstructPanel(candidates, p.floors).Ok?
    ensures OpenConvening(h, id, task, p, ConstructPanel(candidates, p.floors).value).Ok?
  {
    hide Sort, Keep, CheckFloors;
    SortOrders(LiveOf(candidates));
    var taken := Sort(LiveOf(candidates))[..p.floors.panelSize];
    assert SeatsOf(Seated(taken)) == taken;
  }

  /** After the version bump, `SameCard` can only mean that the digest confused two different texts. */
  lemma {:induction false} SameCardNeedsCollision(h: Digest, pin: string, archived: Protocol, newer: Protocol)
    requires Pin(h, archived) == pin
    ensures var r := CheckBump(h, pin, archived, newer);
      r.Some? && r.value.SameCard? ==>
        Canonical(archived) != Canonical(newer) && h(Canonical(archived)) == h(Canonical(newer))
  {
    CanonicalInjective(archived, newer);
  }

  // ---------- chains ----------

  /** What a chain of re-dispatches is about, for either body. */
  datatype Link = Link(id: string, task: string, stakes: Stakes, pin: string, rerunOf: Option<string>)

  function CouncilLink(s: CouncilSession): Link {
    Link(s.convening.id, s.convening.task, s.stakes, s.convening.pin, s.rerunOf)
  }

  function QuorumLink(s: QuorumSession): Link {
    Link(s.id, s.task, s.stakes, s.pin, s.rerunOf)
  }

  ghost predicate Follows(h: Digest, a: Link, archived: Protocol, newer: Protocol, b: Link) {
    && Pin(h, archived) == a.pin && archived.version < newer.version
    && b == Link(RerunId(a.id, newer), a.task, a.stakes, Pin(h, newer), Some(a.id))
  }

  /** `links[i + 1]` re-dispatches `links[i]`; `cards[0]` opened the first, `cards[i + 1]` each later one. */
  ghost predicate Chained(h: Digest, links: seq<Link>, archived: seq<Protocol>, cards: seq<Protocol>) {
    && |links| == |cards| == |archived| + 1
    && links[0].pin == Pin(h, cards[0])
    && forall i :: 0 <= i < |archived| ==> Follows(h, links[i], archived[i], cards[i + 1], links[i + 1])
  }

  ghost predicate Descends(a: Link, p: Protocol, b: Link, q: Protocol) {
    && p.version < q.version && a.pin != b.pin
    && a.id < b.id && a.task == b.task && a.stakes == b.stakes
  }

  lemma LinkPins(h: Digest, links: seq<Link>, archived: seq<Protocol>, cards: seq<Protocol>, i: nat)
    requires Chained(h, links, archived, cards) && i < |links|
    ensures links[i].pin == Pin(h, cards[i])
  {
    if i > 0 {
      assert Follows(h, links[i - 1], archived[i - 1], cards[i], links[i]);
    }
  }

  lemma {:induction false} ChainOrder(h: Digest, links: seq<Link>, archived: seq<Protocol>, cards: seq<Protocol>,
      all: set<Protocol>, i: nat, j: nat)
    requires Chained(h, links, archived, cards) && Apart(h, all)
    requires forall p :: p in cards || p in archived ==> p in all
    requires i < j < |links|
    ensures Descends(links[i], cards[i], links[j], cards[j])
    decreases j
  {
    hide Pin, Apart;
    var a, b := links[j - 1], links[j];
    assert Follows(h, a, archived[j - 1], cards[j], b);
    LinkPins(h, links, archived, cards, j - 1);
    PinNamesCard(h, all, archived[j - 1], cards[j - 1]);
    assert a.id < b.id;
    if i < j - 1 {
      ChainOrder(h, links, archived, cards, all, i, j - 1);
    }
    LinkPins(h, links, archived, cards, i);
    LinkPins(h, links, archived, cards, j);
    PinNamesCard(h, all, cards[i], cards[j]);
  }

  /**
   Along any chain of re-dispatches versions strictly increase, pins and ids are pairwise distinct
   (each id properly extends every earlier one), task and stakes never change, and `rerunOf` leads
   back one link at a time to the first convening.
   */
  lemma {:induction false} ChainLaw(h: Digest, links: seq<Link>, archived: seq<Protocol>, cards: seq<Protocol>,
      all: set<Protocol>)
    requires Chained(h, links, archived, cards) && Apart(h, all)
    requires forall p :: p in cards || p in archived ==> p in all
    ensures forall i, j :: 0 <= i < j < |links| ==> Descends(links[i], cards[i], links[j], cards[j])
    ensures forall i :: 0 <= i < |archived| ==> links[i + 1].rerunOf == Some(links[i].id)
  {
    forall i: nat, j: nat | i < j < |links| ensures Descends(links[i], cards[i], links[j], cards[j]) {
      ChainOrder(h, links, archived, cards, all, i, j);
    }
    forall i | 0 <= i < |archived| ensures links[i + 1].rerunOf == Some(links[i].id) {
      assert Follows(h, links[i], archived[i], cards[i + 1], links[i + 1]);
    }
  }

  /** A council re-dispatch is a link of such a chain, opened under the new card and off the gate. */
  lemma {:induction false} CouncilFollows(h: Digest, s: CouncilSession, archived: Protocol, newer: Protocol,
      candidates: seq<Seat>, actor: string, warden: CardState)
    ensures var r := RedispatchCouncil(h, s, archived, newer, candidates, actor, warden);
      && (r.Ok? ==>
            && Follows(h, CouncilLink(s), archived, newer, CouncilLink(r.value))
            && |r.value.convening.panel| == newer.floors.panelSize
            && CheckFloors(SeatsOf(r.value.convening.panel), newer.floors).None?
            && warden.active == Some(r.value.gate.wardenCard) && r.value.gate.actor == actor)
      && (r.Err? ==> !r.error.ConveningSize? && !r.error.ConveningFloor?)
  {
    hide ConstructPanel, CheckFloors, Canonical, RerunId;
    if ConstructPanel(candidates, newer.floors).Ok? {
      ConstructedPanelOpens(h, RerunId(s.convening.id, newer), s.convening.task, newer, candidates);
    }
  }

  /** So is a quorum re-dispatch, which also keeps its council. */
  lemma {:induction false} QuorumFollows(h: Digest, s: QuorumSession, archived: Protocol, newer: Protocol,
      council: CouncilSession, candidates: seq<Seat>, approval: Option<D.Approval>, actor: string,
      warden: CardState)
    ensures var r := RedispatchQuorum(h, s, archived, newer, council, candidates, approval, actor, warden);
      && (r.Ok? ==>
            && Follows(h, QuorumLink(s), archived, newer, QuorumLink(r.value))
            && r.value.council == s.council == council.convening.id
            && warden.active == Some(r.value.gate.wardenCard) && r.value.gate.actor == actor)
  {
    hide SelectPool, Canonical, RerunId;
  }

  /** A session opened by `convene` can start a chain. */
  lemma {:induction false} ConvenedPin(h: Digest, id: string, task: string, stakes: Stakes, p: Protocol,
      candidates: seq<Seat>, actor: string, warden: CardState)
    ensures var r := ConveneCouncil(h, id, task, stakes, p, candidates, actor, warden);
      r.Ok? ==>
        && CouncilLink(r.value) == Link(id, task, stakes, Pin(h, p), None)
        && |r.value.convening.panel| == p.floors.panelSize
  {
    hide ConstructPanel, CheckFloors, Canonical;
  }

  lemma {:induction false} ConvenedQuorumPin(h: Digest, id: string, council: CouncilSession, p: Protocol,
      candidates: seq<Seat>, approval: Option<D.Approval>, actor: string, warden: CardState)
    ensures var r := ConveneQuorum(h, id, council, p, candidates, approval, actor, warden);
      r.Ok? ==>
        && QuorumLink(r.value) == Link(id, council.convening.task, council.stakes, Pin(h, p), None)
        && r.value.council == council.convening.id && |r.value.pool| == p.floors.panelSize >= 2
  {
    hide SelectPool, Canonical;
    SelectedPool(council.convening.panel, candidates, approval, p.floors);
  }

  // ---------- chains of either body ----------

  /** One re-dispatch: the archived card supplied, the new one, and what it is seated from. */
  datatype Hop = Hop(
    archived: Protocol, newer: Protocol, council: CouncilSession, candidates: seq<Seat>, approval: Option<D.Approval>,
    actor: string, warden: CardState)

  ghost predicate CouncilChain(h: Digest, ss: seq<CouncilSession>, hops: seq<Hop>) {
    && |ss| == |hops| + 1
    && forall i :: 0 <= i < |hops| ==>
      RedispatchCouncil(h, ss[i], hops[i].archived, hops[i].newer, hops[i].candidates, hops[i].actor, hops[i].warden)
        == Ok(ss[i + 1])
  }

  ghost predicate QuorumChain(h: Digest, ss: seq<QuorumSession>, hops: seq<Hop>) {
    && |ss| == |hops| + 1
    && forall i :: 0 <= i < |hops| ==>
      RedispatchQuorum(h, ss[i], hops[i].archived, hops[i].newer, hops[i].council, hops[i].candidates, hops[i].approval,
        hops[i].actor, hops[i].warden) == Ok(ss[i + 1])
  }

  /** The card of the `i`th session of a chain opened under `first`. */
  function CardAt(first: Protocol, hops: seq<Hop>, i: nat): Protocol
    requires i <= |hops|
  {
    if i == 0 then first else hops[i - 1].newer
  }

  /** The links of a chain satisfy the law whichever body they come from. */
  ghost predicate Lawful(links: seq<Link>, first: Protocol, hops: seq<Hop>) {
    && |links| == |hops| + 1
    && (forall i, j :: 0 <= i < j < |links| ==>
          Descends(links[i], CardAt(first, hops, i), links[j], CardAt(first, hops, j)))
    && (forall i :: 0 <= i < |hops| ==> links[i + 1].rerunOf == Some(links[i].id))
  }

  ghost predicate AllApart(h: Digest, first: Protocol, hops: seq<Hop>) {
    Apart(h, {first} + (set x | x in hops :: x.archived) + (set x | x in hops :: x.newer))
  }

  lemma HopsLaw(h: Digest, links: seq<Link>, first: Protocol, hops: seq<Hop>)
    requires |links| == |hops| + 1 && links[0].pin == Pin(h, first) && AllApart(h, first, hops)
    requires forall i :: 0 <= i < |hops| ==> Follows(h, links[i], hops[i].archived, hops[i].newer, links[i + 1])
    ensures Lawful(links, first, hops)
  {
    hide Pin, Follows, Descends, Apart;
    var all := {first} + (set x | x in hops :: x.archived) + (set x | x in hops :: x.newer);
    var cards := seq(|links|, i requires 0 <= i < |links| => CardAt(first, hops, i));
    var archived := seq(|hops|, i requires 0 <= i < |hops| => hops[i].archived);
    forall p | p in cards || p in archived ensures p in all {
      assert forall i :: 0 <= i < |hops| ==> hops[i] in hops;
    }
    assert Chained(h, links, archived, cards);
    ChainLaw(h, links, archived, cards, all);
    forall i, j | 0 <= i < j < |links|
      ensures Descends(links[i], CardAt(first, hops, i), links[j], CardAt(first, hops, j))
    {
      assert Descends(links[i], cards[i], links[j], cards[j]);
    }
  }

  /** Every chain of council re-dispatches from a session opened under `first`. */
  lemma {:induction false} CouncilChainLaw(h: Digest, ss: seq<CouncilSession>, first: Protocol, hops: seq<Hop>)
    requires CouncilChain(h, ss, hops) && ss[0].convening.pin == Pin(h, first) && AllApart(h, first, hops)
    ensures Lawful(seq(|ss|, i requires 0 <= i < |ss| => CouncilLink(ss[i])), first, hops)
  {
    hide RedispatchCouncil, Pin, Follows, Lawful, AllApart;
    var links := seq(|ss|, i requires 0 <= i < |ss| => CouncilLink(ss[i]));
    forall i | 0 <= i < |hops| ensures Follows(h, links[i], hops[i].archived, hops[i].newer, links[i + 1]) {
      var x := hops[i];
      assert RedispatchCouncil(h, ss[i], x.archived, x.newer, x.candidates, x.actor, x.warden) == Ok(ss[i + 1]);
      CouncilFollows(h, ss[i], x.archived, x.newer, x.candidates, x.actor, x.warden);
    }
    HopsLaw(h, links, first, hops);
  }

  /** And of quorum re-dispatches, whose council stays the same throughout. */
  lemma {:induction false} QuorumChainLaw(h: Digest, ss: seq<QuorumSession>, first: Protocol, hops: seq<Hop>)
    requires QuorumChain(h, ss, hops) && ss[0].pin == Pin(h, first) && AllApart(h, first, hops)
    ensures Lawful(seq(|ss|, i requires 0 <= i < |ss| => QuorumLink(ss[i])), first, hops)
    ensures forall i :: 0 <= i < |hops| ==> ss[i + 1].council == ss[i].council == hops[i].council.convening.id
  {
    hide RedispatchQuorum, Pin, Follows, Lawful, AllApart;
    var links := seq(|ss|, i requires 0 <= i < |ss| => QuorumLink(ss[i]));
    forall i | 0 <= i < |hops|
      ensures Follows(h, links[i], hops[i].archived, hops[i].newer, links[i + 1])
      ensures ss[i + 1].council == ss[i].council == hops[i].council.convening.id
    {
      var x := hops[i];
      assert RedispatchQuorum(h, ss[i], x.archived, x.newer, x.council, x.candidates, x.approval, x.actor, x.warden)
        == Ok(ss[i + 1]);
      QuorumFollows(h, ss[i], x.archived, x.newer, x.council, x.candidates, x.approval, x.actor, x.warden);
    }
    HopsLaw(h, links, first, hops);
  }
}
