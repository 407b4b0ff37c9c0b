/**
 The seat registry's rows and their fold: the data of crates/caddis-deliberate/src/registry.rs, with
 the vocabularies of lib.rs.
 */
module Cards {
  import opened Wrappers
  import opened Decimals

  datatype LaneType = Http | Bridge | Cli

  datatype CostClass = Free | Mid | Premium

  datatype SeatState = Live | Expired | RateLimited | Retired | Probing | Failed | Unprobeable

  datatype ProviderCard = ProviderCard(
    id: string, laneType: LaneType, baseUrl: string, authPath: string, probePath: string, caps: nat, source: string)

  datatype SeatCard = SeatCard(
    id: string, provider: string, family: string, model: string,
    laneType: LaneType, costClass: CostClass, state: SeatState,
    since: nat, caps: nat, costIn: Decimal, costOut: Decimal, contextWindow: nat, maxTokens: nat, source: string)

  datatype Card = Provider(p: ProviderCard) | Seat(s: SeatCard) {
    /** The fold key: a later row with the same key supersedes. */
    function Key(): (bool, string) {
      match this
      case Provider(p) => (true, p.id)
      case Seat(s) => (false, s.id)
    }
  }

  datatype Registry = Registry(providers: map<string, ProviderCard>, seats: map<string, SeatCard>) {
    function With(c: Card): Registry {
      match c
      case Provider(p) => this.(providers := providers[p.id := p])
      case Seat(s) => this.(seats := seats[s.id := s])
    }

    function Find(key: (bool, string)): Option<Card> {
      if key.0 then
        if key.1 in providers then Some(Provider(providers[key.1])) else None
      else if key.1 in seats then Some(Seat(seats[key.1])) else None
    }
  }

  /** `Registry::fold`. */
  function Fold(cards: seq<Card>): Registry
    decreases |cards|
  {
    if cards == [] then Registry(map[], map[]) else Fold(cards[..|cards| - 1]).With(cards[|cards| - 1])
  }

  /** The last row with a key. */
  function LastWith(cards: seq<Card>, key: (bool, string)): (r: Option<Card>)
    ensures r.Some? ==> r.value in cards && r.value.Key() == key
    ensures r.None? ==> forall c :: c in cards ==> c.Key() != key
    decreases |cards|
  {
    if cards == [] then None
    else if cards[|cards| - 1].Key() == key then Some(cards[|cards| - 1])
    else LastWith(cards[..|cards| - 1], key)
  }

  /** Looking a key up in the fold finds its last row in the stream. */
  lemma {:induction false} LastRowWins(cards: seq<Card>, key: (bool, string))
    ensures Fold(cards).Find(key) == LastWith(cards, key)
    decreases |cards|
  {
    if cards != [] {
      LastRowWins(cards[..|cards| - 1], key);
    }
  }

  /** `Registry::fold`, as the loop that inserts into the two maps. */
  method FoldCards(cards: seq<Card>) returns (r: Registry)
    ensures r == Fold(cards)
  {
    var providers: map<string, ProviderCard>, seats: map<string, SeatCard> := map[], map[];
    for i := 0 to |cards|
      invariant Registry(providers, seats) == Fold(cards[..i])
    {
      assert cards[..i + 1][..i] == cards[..i];
      match cards[i]
      case Provider(p) => providers := providers[p.id := p];
      case Seat(s) => seats := seats[s.id := s];
    }
    assert cards[..|cards|] == cards;
    r := Registry(providers, seats);
  }
}
