/**
 The versioned protocol card, its canonical text and its pin:
 crates/caddis-deliberate/src/protocol.rs. The digest is a parameter.
 */
module Protocols {
  import opened Text
  import opened Json
  import opened Decimals
  import opened JsonRoundTrip
  import opened Flat
  import opened Seats

  datatype Kind = Council | Quorum

  function KindWord(k: Kind): string {
    match k
    case Council => "council"
    case Quorum => "quorum"
  }

  datatype Protocol = Protocol(version: nat, kind: Kind, stages: seq<string>, floors: Floors)

  function Quoted(stages: seq<string>): seq<string> {
    seq(|stages|, i requires 0 <= i < |stages| => "\"" + Escaped(stages[i]) + "\"")
  }

  function FloorFields(f: Floors): seq<(string, string)> {
    [("panel_size", Dec(f.panelSize)), ("min_families", Dec(f.minFamilies)), ("min_non_chinese", Dec(f.minNonChinese))]
  }

  function Canonical(p: Protocol): string {
    Object([
      ("version", Dec(p.version)),
      ("kind", Word(KindWord(p.kind))),
      ("stages", "[" + Listed(Quoted(p.stages)) + "]"),
      ("floors", Object(FloorFields(p.floors)))])
  }

  // ---------- the canonical text is injective ----------

  function StageValues(stages: seq<string>): seq<Value> {
    seq(|stages|, i requires 0 <= i < |stages| => Str(stages[i]))
  }

  function FloorMembers(f: Floors): seq<Member> {
    [Member("panel_size", Num(Int(f.panelSize))),
     Member("min_families", Num(Int(f.minFamilies))),
     Member("min_non_chinese", Num(Int(f.minNonChinese)))]
  }

  function CardMembers(p: Protocol): seq<Member> {
    [Member("version", Num(Int(p.version))),
     Member("kind", Str(KindWord(p.kind))),
     Member("stages", Arr(StageValues(p.stages))),
     Member("floors", Obj(FloorMembers(p.floors)))]
  }

  lemma FloorNames()
    ensures Plain("panel_size") && Plain("min_families") && Plain("min_non_chinese") && Plain("floors")
  {
  }

  lemma FloorsWritten(f: Floors)
    ensures Writes(("floors", Object(FloorFields(f))), Member("floors", Obj(FloorMembers(f))))
    ensures Nest(Obj(FloorMembers(f))) <= 1
  {
    NestAtMost(FloorMembers(f), 0);
    FloorNames();
    hide Plain, Dec, WriteValue, Object, Nest, Writes;
    NatField("panel_size", f.panelSize);
    NatField("min_families", f.minFamilies);
    NatField("min_non_chinese", f.minNonChinese);
    FieldsWritten("floors", FloorFields(f), FloorMembers(f));
  }

  lemma StagesWritten(stages: seq<string>)
    ensures Writes(("stages", "[" + Listed(Quoted(stages)) + "]"), Member("stages", Arr(StageValues(stages))))
    ensures Nest(Arr(StageValues(stages))) <= 1
  {
    hide Escaped;
    assert Plain("stages");
    ItemsNestAtMost(StageValues(stages), 0);
    ListIsWritten(Quoted(stages), StageValues(stages));
  }

  /** The canonical text is the writer's, of an object no deeper than the parser's cap. */
  lemma {:induction false} CanonicalIsWritten(p: Protocol)
    ensures Canonical(p) == WriteValue(Obj(CardMembers(p)))
    ensures Nest(Obj(CardMembers(p))) <= MAX_DEPTH
  {
    KindWords(p.kind, p.kind);
    NatField("version", p.version);
    WordField("kind", KindWord(p.kind));
    StagesWritten(p.stages);
    FloorsWritten(p.floors);
    CardNest(p);
    hide Dec, WriteValue, Object, Listed, Quoted, StageValues, FloorMembers, FloorFields, Nest, Word, KindWord, Writes;
    var fields := [
      ("version", Dec(p.version)),
      ("kind", Word(KindWord(p.kind))),
      ("stages", "[" + Listed(Quoted(p.stages)) + "]"),
      ("floors", Object(FloorFields(p.floors)))];
    assert WritesAll(fields, CardMembers(p));
    ObjectIsWritten(fields, CardMembers(p));
  }

  lemma CardNest(p: Protocol)
    ensures Nest(Obj(CardMembers(p))) <= 2
  {
    StagesWritten(p.stages);
    FloorsWritten(p.floors);
    NestAtMost(CardMembers(p), 1);
  }

  lemma StageValuesInjective(a: seq<string>, b: seq<string>)
    requires StageValues(a) == StageValues(b)
    ensures a == b
  {
    assert |a| == |StageValues(a)| == |StageValues(b)| == |b|;
    forall i | 0 <= i < |a| ensures a[i] == b[i] {
      assert StageValues(a)[i] == StageValues(b)[i];
    }
  }

  lemma FloorMembersInjective(f: Floors, g: Floors)
    requires FloorMembers(f) == FloorMembers(g)
    ensures f == g
  {
    var a, b := FloorMembers(f), FloorMembers(g);
    assert a[0] == b[0] && a[1] == b[1] && a[2] == b[2];
  }

  /** Different cards have different canonical texts, whatever their stage strings spell. */
  lemma {:induction false} CanonicalInjective(p: Protocol, q: Protocol)
    ensures Canonical(p) == Canonical(q) ==> p == q
  {
    if Canonical(p) == Canonical(q) {
      CanonicalIsWritten(p);
      CanonicalIsWritten(q);
      hide Canonical, WriteValue, Nest, StageValues, FloorMembers, KindWord;
      WriteInjective(Obj(CardMembers(p)), Obj(CardMembers(q)));
      var a, b := CardMembers(p), CardMembers(q);
      assert a[0] == b[0] && a[1] == b[1] && a[2] == b[2] && a[3] == b[3];
      StageValuesInjective(p.stages, q.stages);
      FloorMembersInjective(p.floors, q.floors);
      KindWords(p.kind, q.kind);
    }
  }

  lemma KindWords(a: Kind, b: Kind)
    ensures KindWord(a) == KindWord(b) ==> a == b
    ensures Plain(KindWord(a))
  {
  }

  // ---------- pins ----------

  type Digest = string -> string

  function Pin(h: Digest, p: Protocol): string {
    h(Canonical(p))
  }

  /** No two of the cards at hand have canonical texts the digest confuses. */
  ghost predicate Apart(h: Digest, cards: set<Protocol>) {
    forall p, q :: p in cards && q in cards && Pin(h, p) == Pin(h, q) ==> Canonical(p) == Canonical(q)
  }

  /** Then a pin names one card. */
  lemma {:induction false} PinNamesCard(h: Digest, cards: set<Protocol>, p: Protocol, q: Protocol)
    requires Apart(h, cards) && p in cards && q in cards
    ensures Pin(h, p) == Pin(h, q) <==> p == q
  {
    CanonicalInjective(p, q);
  }
}
