/**
 What a reader of the cached view finds in it: crates/caddis-deliberate/src/registry.rs writes the view
 by hand; here it is read by the JSON parser and compared with the rows of the stream.
 */
module CardView {
  import opened Wrappers
  import opened Text
  import opened BTree
  import opened Lexical
  import opened Json
  import opened Decimals
  import opened Flat
  import opened Cards
  import opened CardStream
  import opened CardLaws
  import opened CardHome

  // ---------- what a card looks like ----------

  /** The members of a card, by name. */
  ghost function Shape(c: Card): seq<Member> {
    match c
    case Provider(p) =>
      [Member("class", Str("provider")), Member("id", Str(p.id)), Member("lane_type", Str(LaneText(p.laneType))),
       Member("base_url", Str(p.baseUrl)), Member("auth_path", Str(p.authPath)),
       Member("probe_path", Str(p.probePath)), Member("caps", Num(Int(p.caps))), Member("source", Str(p.source))]
    case Seat(s) =>
      [Member("class", Str("seat")), Member("id", Str(s.id)), Member("provider", Str(s.provider)),
       Member("family", Str(s.family)), Member("model", Str(s.model)), Member("lane_type", Str(LaneText(s.laneType))),
       Member("cost_class", Str(CostText(s.costClass))), Member("state", Str(StateText(s.state))),
       Member("since_epoch_s", Num(Int(s.since))), Member("caps", Num(Int(s.caps))),
       Member("cost_in_usd_per_mtok", Num(s.costIn)), Member("cost_out_usd_per_mtok", Num(s.costOut)),
       Member("context_window", Num(Int(s.contextWindow))), Member("max_tokens", Num(Int(s.maxTokens))),
       Member("source", Str(s.source))]
  }

  lemma ShapeIs(c: Card)
    ensures CardMembers(c) == Shape(c)
  {
  }

  // ---------- what the parser lets through ----------

  lemma LineSettled(t: string)
    requires ParseLine(t).Ok?
    ensures Settled(ParseLine(t).value)
  {
    hide Parse, Settled, SaysCard, CardStream.ParseObject;
    var ms := Parse(t).value.members;
    ObjectMeans(ms, ParseLine(t).value);
    SaidSettled(ms, ParseLine(t).value);
  }

  lemma {:induction false} LinesSettled(lines: seq<string>, lineNo: nat)
    requires ParseLines(lines, lineNo).Ok?
    ensures forall c :: c in ParseLines(lines, lineNo).value ==> Settled(c)
    decreases |lines|
  {
    hide ParseLine, Trim, Settled;
    if lines != [] {
      LinesSettled(lines[1..], lineNo + 1);
      var t := Trim(lines[0]);
      if t != "" {
        LineSettled(t);
      }
    }
  }

  // ---------- what the view shows ----------

  ghost predicate SameKey(a: Card, b: Card) {
    (a.Provider? && b.Provider? && a.p.id == b.p.id) || (a.Seat? && b.Seat? && a.s.id == b.s.id)
  }

  /** A row of the stream that no later row supersedes. */
  ghost predicate Current(cards: seq<Card>, c: Card) {
    exists i :: 0 <= i < |cards| && cards[i] == c && forall j :: i < j < |cards| ==> !SameKey(cards[j], c)
  }

  ghost function Id(c: Card): string {
    if c.Provider? then c.p.id else c.s.id
  }

  /** The item is the card's object, and the stream's own parser reads it as that card. */
  ghost predicate Displays(item: Value, c: Card) {
    item == Obj(Shape(c)) && CardStream.ParseObject(item.members) == Ok(c)
  }

  /** The items are exactly the current cards of one kind, by strictly rising id. */
  ghost predicate Gallery(items: seq<Value>, shown: seq<Card>, cards: seq<Card>, providers: bool) {
    && |items| == |shown| && (forall i :: 0 <= i < |items| ==> Displays(items[i], shown[i]))
    && (forall c :: c in shown <==> c.Provider? == providers && Current(cards, c))
    && forall i, j :: 0 <= i < j < |shown| ==> Precedes(Id(shown[i]), Id(shown[j]))
  }

  ghost predicate Displayed(view: string, digest: string, cards: seq<Card>, providers: seq<Value>, seats: seq<Value>,
      ps: seq<Card>, ss: seq<Card>)
  {
    && Parse(view) == Ok(Obj([
        Member("stream_sha256", Str(digest)), Member("rows", Num(Int(|cards|))),
        Member("providers", Arr(providers)), Member("seats", Arr(seats))]))
    && Gallery(providers, ps, cards, true) && Gallery(seats, ss, cards, false)
  }

  ghost predicate Shows(view: string, digest: string, cards: seq<Card>) {
    exists providers, seats, ps, ss :: Displayed(view, digest, cards, providers, seats, ps, ss)
  }

  lemma KeyMeans(a: Card, b: Card)
    ensures a.Key() == b.Key() <==> SameKey(a, b)
  {
  }

  lemma CurrentSnoc(cards: seq<Card>, c: Card)
    requires cards != []
    ensures var n := |cards| - 1; Current(cards, c) <==>
      cards[n] == c || (!SameKey(cards[n], c) && Current(cards[..n], c))
  {
    hide SameKey;
    KeyMeans(c, c);
    assert SameKey(c, c);
    var n := |cards| - 1;
    if cards[n] != c && !SameKey(cards[n], c) {
      var front := cards[..n];
      if Current(cards, c) {
        var i :| 0 <= i < |cards| && cards[i] == c && forall j :: i < j < |cards| ==> !SameKey(cards[j], c);
        assert front[i] == c && forall j :: i < j < |front| ==> !SameKey(front[j], c);
      }
      if Current(front, c) {
        var i :| 0 <= i < |front| && front[i] == c && forall j :: i < j < |front| ==> !SameKey(front[j], c);
        assert cards[i] == c && forall j :: i < j < |cards| ==> !SameKey(cards[j], c);
      }
    }
  }

  lemma {:induction false} CurrentIsLast(cards: seq<Card>, c: Card)
    ensures Current(cards, c) <==> LastWith(cards, c.Key()) == Some(c)
    decreases |cards|
  {
    if cards != [] {
      CurrentSnoc(cards, c);
      KeyMeans(cards[|cards| - 1], c);
      CurrentIsLast(cards[..|cards| - 1], c);
      hide Current, SameKey;
    }
  }

  lemma ProviderCurrent(cards: seq<Card>, k: string)
    ensures k in Fold(cards).providers ==> Fold(cards).providers[k].id == k
    ensures forall c: Card :: c.Provider? && c.p.id == k ==>
      (Current(cards, c) <==> k in Fold(cards).providers && Fold(cards).providers[k] == c.p)
  {
    hide Fold, LastWith, Current;
    LastRowWins(cards, (true, k));
    forall c: Card | c.Provider? && c.p.id == k
      ensures Current(cards, c) <==> k in Fold(cards).providers && Fold(cards).providers[k] == c.p
    {
      CurrentIsLast(cards, c);
    }
  }

  lemma SeatCurrent(cards: seq<Card>, k: string)
    ensures k in Fold(cards).seats ==> Fold(cards).seats[k].id == k
    ensures forall c: Card :: c.Seat? && c.s.id == k ==>
      (Current(cards, c) <==> k in Fold(cards).seats && Fold(cards).seats[k] == c.s)
  {
    hide Fold, LastWith, Current;
    LastRowWins(cards, (false, k));
    forall c: Card | c.Seat? && c.s.id == k
      ensures Current(cards, c) <==> k in Fold(cards).seats && Fold(cards).seats[k] == c.s
    {
      CurrentIsLast(cards, c);
    }
  }

  lemma Rising(keys: seq<string>, i: nat, j: nat)
    requires Ascending(keys) && i < j < |keys|
    ensures Precedes(keys[i], keys[j])
  {
    OrderIsLexical(keys[i], keys[j]);
    hide Precedes, StrLe;
  }

  lemma CurrentMember(cards: seq<Card>, c: Card)
    requires Current(cards, c)
    ensures c in cards
  {
  }

  lemma CardDisplays(c: Card)
    requires Settled(c)
    ensures Displays(CardValue(c), c)
  {
    hide CardMembers, Shape, CountsHeld, Acceptable, Typed, AsRead;
    ShapeIs(c);
    ObjectReads(c);
    HeldAreRead(c);
  }

  lemma AllDisplay(items: seq<Value>, shown: seq<Card>, cards: seq<Card>)
    requires |items| == |shown| && forall i :: 0 <= i < |items| ==> items[i] == CardValue(shown[i])
    requires forall c :: c in shown ==> Current(cards, c)
    requires forall c :: c in cards ==> Settled(c)
    ensures forall i :: 0 <= i < |items| ==> Displays(items[i], shown[i])
  {
    hide CardMembers, Displays, Settled, Current;
    forall i | 0 <= i < |items| ensures Displays(items[i], shown[i]) {
      assert shown[i] in shown;
      CurrentMember(cards, shown[i]);
      CardDisplays(shown[i]);
    }
  }

  lemma GalleryOf(keys: seq<string>, shown: seq<Card>, items: seq<Value>, cards: seq<Card>, providers: bool)
    requires forall c :: c in cards ==> Settled(c)
    requires Ascending(keys) && |keys| == |shown| == |items|
    requires forall i :: 0 <= i < |items| ==> items[i] == CardValue(shown[i]) && Id(shown[i]) == keys[i]
    requires forall c :: c in shown <==> c.Provider? == providers && Current(cards, c)
    ensures Gallery(items, shown, cards, providers)
  {
    hide Current, Displays, Settled, Ascending, Precedes, CardMembers, CardValue, Id;
    AllDisplay(items, shown, cards);
    forall i, j | 0 <= i < j < |shown| ensures Precedes(Id(shown[i]), Id(shown[j])) {
      Rising(keys, i, j);
    }
  }

  lemma ProvidersShown(cards: seq<Card>)
    ensures var reg := Fold(cards);
      var keys := Ordered(reg.providers.Keys);
      var shown := ProvidersAt(reg, keys);
      && (forall i :: 0 <= i < |keys| ==> Id(shown[i]) == keys[i])
      && forall c :: c in shown <==> c.Provider? && Current(cards, c)
  {
    hide Fold, Current, Ascending;
    var reg := Fold(cards);
    var keys := Ordered(reg.providers.Keys);
    var shown := ProvidersAt(reg, keys);
    forall i | 0 <= i < |keys| ensures shown[i].p.id == keys[i] && Current(cards, shown[i]) {
      ProviderCurrent(cards, keys[i]);
    }
    forall c: Card | c.Provider? && Current(cards, c) ensures c in shown {
      ProviderCurrent(cards, c.p.id);
      var i :| 0 <= i < |keys| && keys[i] == c.p.id;
      assert shown[i] == c;
    }
  }

  lemma SeatsShown(cards: seq<Card>)
    ensures var reg := Fold(cards);
      var keys := Ordered(reg.seats.Keys);
      var shown := SeatsAt(reg, keys);
      && (forall i :: 0 <= i < |keys| ==> Id(shown[i]) == keys[i])
      && forall c :: c in shown <==> c.Seat? && Current(cards, c)
  {
    hide Fold, Current, Ascending;
    var reg := Fold(cards);
    var keys := Ordered(reg.seats.Keys);
    var shown := SeatsAt(reg, keys);
    forall i | 0 <= i < |keys| ensures shown[i].s.id == keys[i] && Current(cards, shown[i]) {
      SeatCurrent(cards, keys[i]);
    }
    forall c: Card | c.Seat? && Current(cards, c) ensures c in shown {
      SeatCurrent(cards, c.s.id);
      var i :| 0 <= i < |keys| && keys[i] == c.s.id;
      assert shown[i] == c;
    }
  }

  function Values(cards: seq<Card>): seq<Value> {
    seq(|cards|, i requires 0 <= i < |cards| => CardValue(cards[i]))
  }

  /** The view parses to its four members, its cards as their objects. */
  lemma ViewParses(digest: string, rows: nat, providers: seq<Card>, seats: seq<Card>, pt: seq<string>,
      st: seq<string>)
    requires |pt| == |providers| && |st| == |seats|
    requires forall i :: 0 <= i < |providers| ==> pt[i] == EncodeCard(providers[i])
    requires forall i :: 0 <= i < |seats| ==> st[i] == EncodeCard(seats[i])
    requires Bytes(Object(ViewFields(digest, rows, pt, st))) <= MAX_BYTES
    ensures Parse(Object(ViewFields(digest, rows, pt, st)))
      == Ok(Obj(ViewMembers(digest, rows, Values(providers), Values(seats))))
  {
    ViewKeys();
    hide Plain, EncodeCard, Writes, Nest, Listed, ClaimedDigest, Bytes, Object, ViewFields, ViewMembers, CardValue;
    hide Parse;
    CardListWritten("providers", providers, pt);
    CardListWritten("seats", seats, st);
    ViewReads(digest, rows, pt, st, Values(providers), Values(seats));
  }

  lemma Assembled(digest: string, cards: seq<Card>, ids: seq<string>, lanes: seq<string>, ps: seq<Card>,
      ss: seq<Card>, pt: seq<string>, st: seq<string>)
    requires forall c :: c in cards ==> Settled(c)
    requires Ascending(ids) && Ascending(lanes) && |ids| == |ps| == |pt| && |lanes| == |ss| == |st|
    requires forall i :: 0 <= i < |ps| ==> Id(ps[i]) == ids[i] && pt[i] == EncodeCard(ps[i])
    requires forall i :: 0 <= i < |ss| ==> Id(ss[i]) == lanes[i] && st[i] == EncodeCard(ss[i])
    requires forall c :: c in ps <==> c.Provider? && Current(cards, c)
    requires forall c :: c in ss <==> c.Seat? && Current(cards, c)
    requires Bytes(Object(ViewFields(digest, |cards|, pt, st))) <= MAX_BYTES
    ensures Shows(Object(ViewFields(digest, |cards|, pt, st)), digest, cards)
  {
    hide EncodeCard, Object, ViewFields, Bytes, Ascending, Parse, CardValue, Gallery, Settled, Current, Id;
    ViewParses(digest, |cards|, ps, ss, pt, st);
    GalleryOf(ids, ps, Values(ps), cards, true);
    GalleryOf(lanes, ss, Values(ss), cards, false);
    assert Displayed(Object(ViewFields(digest, |cards|, pt, st)), digest, cards, Values(ps), Values(ss), ps, ss);
  }

  lemma TextsAre(reg: Registry, ids: seq<string>, lanes: seq<string>)
    requires (forall k :: k in ids ==> k in reg.providers) && (forall k :: k in lanes ==> k in reg.seats)
    ensures var pt, ps := ProviderTexts(reg, ids), ProvidersAt(reg, ids);
      |pt| == |ps| == |ids| && forall i :: 0 <= i < |ps| ==> pt[i] == EncodeCard(ps[i])
    ensures var st, ss := CardHome.SeatTexts(reg, lanes), SeatsAt(reg, lanes);
      |st| == |ss| == |lanes| && forall i :: 0 <= i < |ss| ==> st[i] == EncodeCard(ss[i])
  {
    hide EncodeCard;
  }

  lemma FoldShows(digest: string, cards: seq<Card>)
    requires forall c :: c in cards ==> Settled(c)
    requires Bytes(EncodeView(Fold(cards), digest, |cards|)) <= MAX_BYTES
    ensures Shows(EncodeView(Fold(cards), digest, |cards|), digest, cards)
  {
    hide EncodeCard, Object, ViewFields, Bytes, Ascending, Fold, Settled, Current, Id, Shows, ProviderTexts;
    hide CardHome.SeatTexts, ProvidersAt, SeatsAt;
    ProvidersShown(cards);
    SeatsShown(cards);
    var reg := Fold(cards);
    var ids, lanes := Ordered(reg.providers.Keys), Ordered(reg.seats.Keys);
    TextsAre(reg, ids, lanes);
    Assembled(digest, cards, ids, lanes, ProvidersAt(reg, ids), SeatsAt(reg, lanes),
      ProviderTexts(reg, ids), CardHome.SeatTexts(reg, lanes));
  }

  /**
   The view of every stream that parses, when it is not too long to parse itself: the digest, the number
   of rows, and exactly the providers and seats no later row supersedes, each once and by rising id.
   */
  lemma {:induction false} ViewShows(h: Digest, text: string)
    requires ParseStream(text).Ok? && Bytes(ViewOf(h, text)) <= MAX_BYTES
    ensures Shows(ViewOf(h, text), h(text), ParseStream(text).value)
  {
    hide ParseLines, EncodeView, Bytes, Settled, Shows, Fold;
    LinesSettled(Lines(text), 1);
    FoldShows(h(text), ParseStream(text).value);
  }

  /** Over every run, a load that gets to its end leaves a view that shows the stream as it then is. */
  lemma {:induction false} CompletedLoadShows(h: Digest, s: Home, es: seq<Event>, texts: set<string>)
    requires NoCollision(h, texts) && Honest(h, s.view, texts) && Within(h, s, es, texts)
    requires LoadResult(h, After(h, s, es)).Ok?
    ensures var t := After(h, s, es);
      && ParseStream(t.stream.value).Ok? && Loaded(h, t).view.Some?
      && (Bytes(Loaded(h, t).view.value) <= MAX_BYTES ==>
            Shows(Loaded(h, t).view.value, h(t.stream.value), ParseStream(t.stream.value).value))
  {
    hide ParseStream, Fresh, After, EncodeView, Fold, Within, NoCollision, Honest, Shows, Bytes;
    CompletedLoadSyncs(h, s, es, texts);
    var t := After(h, s, es);
    if Bytes(ViewOf(h, t.stream.value)) <= MAX_BYTES {
      ViewShows(h, t.stream.value);
    }
  }
}
