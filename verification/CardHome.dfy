/**
 The stream file and its cached view: `encode_view`, `load_and_sync` and `append_card` of
 crates/caddis-deliberate/src/registry.rs. The stream only grows; the view is a cell replaced whole.
 */
module CardHome {
  import opened Wrappers
  import opened Text
  import opened BTree
  import opened Json
  import opened Decimals
  import opened JsonRoundTrip
  import opened Flat
  import opened Cards
  import opened CardStream

  type Digest = string -> string

  // ---------- the view ----------

  function ProviderTexts(reg: Registry, keys: seq<string>): seq<string>
    requires forall k :: k in keys ==> k in reg.providers
  {
    seq(|keys|, i requires 0 <= i < |keys| => EncodeCard(Provider(reg.providers[keys[i]])))
  }

  function SeatTexts(reg: Registry, keys: seq<string>): seq<string>
    requires forall k :: k in keys ==> k in reg.seats
  {
    seq(|keys|, i requires 0 <= i < |keys| => EncodeCard(Seat(reg.seats[keys[i]])))
  }

  function ViewFields(digest: string, rows: nat, providers: seq<string>, seats: seq<string>): seq<(string, string)> {
    [("stream_sha256", WriteStr(digest)), ("rows", Dec(rows)),
     ("providers", "[" + Listed(providers) + "]"), ("seats", "[" + Listed(seats) + "]")]
  }

  /** `encode_view`: both maps in key order. */
  ghost function EncodeView(reg: Registry, digest: string, rows: nat): string {
    Object(ViewFields(digest, rows,
      ProviderTexts(reg, Ordered(reg.providers.Keys)), SeatTexts(reg, Ordered(reg.seats.Keys))))
  }

  method ProviderList(reg: Registry, keys: seq<string>) returns (o: string)
    requires forall k :: k in keys ==> k in reg.providers
    ensures o == Listed(ProviderTexts(reg, keys))
  {
    hide EncodeCard;
    o := "";
    assert ProviderTexts(reg, keys[..0]) == [] && Listed([]) == "";
    hide Listed;
    for i := 0 to |keys|
      invariant o == Listed(ProviderTexts(reg, keys[..i]))
    {
      var text := EncodeCard(Provider(reg.providers[keys[i]]));
      assert ProviderTexts(reg, keys[..i + 1]) == ProviderTexts(reg, keys[..i]) + [text];
      ListedSnoc(ProviderTexts(reg, keys[..i]), text);
      o := if i > 0 then o + "," + text else text;
    }
    assert keys[..|keys|] == keys;
  }

  method SeatList(reg: Registry, keys: seq<string>) returns (o: string)
    requires forall k :: k in keys ==> k in reg.seats
    ensures o == Listed(SeatTexts(reg, keys))
  {
    hide EncodeCard;
    o := "";
    assert SeatTexts(reg, keys[..0]) == [] && Listed([]) == "";
    hide Listed;
    for i := 0 to |keys|
      invariant o == Listed(SeatTexts(reg, keys[..i]))
    {
      var text := EncodeCard(Seat(reg.seats[keys[i]]));
      assert SeatTexts(reg, keys[..i + 1]) == SeatTexts(reg, keys[..i]) + [text];
      ListedSnoc(SeatTexts(reg, keys[..i]), text);
      o := if i > 0 then o + "," + text else text;
    }
    assert keys[..|keys|] == keys;
  }

  /** `encode_view`, as the loops that push onto the output. */
  method ViewText(reg: Registry, digest: string, rows: nat) returns (o: string)
    ensures o == EncodeView(reg, digest, rows)
  {
    hide Ordered, Object, Ascending, ProviderTexts, SeatTexts, Listed;
    var ids := Walk(reg.providers.Keys);
    var providers := ProviderList(reg, ids);
    var lanes := Walk(reg.seats.Keys);
    var seats := SeatList(reg, lanes);
    o := Object([("stream_sha256", WriteStr(digest)), ("rows", Dec(rows)),
      ("providers", "[" + providers + "]"), ("seats", "[" + seats + "]")]);
  }

  /** The digest a view claims to cache; `None` when it does not parse or has no such string. */
  function ClaimedDigest(view: string): Option<string> {
    match Parse(view)
    case Err(_) => None
    case Ok(v) =>
      if v.Obj? && GetStr(v.members, "stream_sha256").Ok? then Some(GetStr(v.members, "stream_sha256").value) else None
  }

  /** The view of a stream that parses. */
  ghost function ViewOf(h: Digest, text: string): string
    requires ParseStream(text).Ok?
  {
    var cards := ParseStream(text).value;
    EncodeView(Fold(cards), h(text), |cards|)
  }

  // ---------- load and append ----------

  datatype Home = Home(stream: Option<string>, view: Option<string>)

  datatype LoadErr = NoStream | Malformed(line: nat)

  predicate Fresh(h: Digest, text: string, view: Option<string>) {
    view.Some? && ClaimedDigest(view.value) == Some(h(text))
  }

  ghost function Loaded(h: Digest, s: Home): Home {
    if s.stream.None? || ParseStream(s.stream.value).Err? || Fresh(h, s.stream.value, s.view) then s
    else s.(view := Some(ViewOf(h, s.stream.value)))
  }

  function LoadResult(h: Digest, s: Home): Result<(Registry, bool), LoadErr> {
    if s.stream.None? then Err(NoStream)
    else
      match ParseStream(s.stream.value)
      case Err(n) => Err(Malformed(n))
      case Ok(cards) => Ok((Fold(cards), !Fresh(h, s.stream.value, s.view)))
  }

  function Written(s: Home, card: Card): Home {
    s.(stream := Some((if s.stream.Some? then s.stream.value else "") + EncodeCard(card) + "\n"))
  }

  class Files {
    const h: Digest
    var stream: Option<string>
    var view: Option<string>

    ghost function Abstract(): Home
      reads this
    {
      Home(stream, view)
    }

    constructor (h: Digest, stream: Option<string>, view: Option<string>)
      ensures this.h == h && Abstract() == Home(stream, view)
    {
      this.h, this.stream, this.view := h, stream, view;
    }

    method LoadAndSync() returns (r: Result<(Registry, bool), LoadErr>)
      modifies this`view
      ensures Abstract() == Loaded(h, old(Abstract())) && r == LoadResult(h, old(Abstract()))
    {
      hide ParseStream, EncodeView, Fold, Fresh;
      if stream.None? {
        return Err(NoStream);
      }
      var text := stream.value;
      var parsed := ParseStream(text);
      if parsed.Err? {
        return Err(Malformed(parsed.error));
      }
      var reg := FoldCards(parsed.value);
      var want := ViewText(reg, h(text), |parsed.value|);
      if Fresh(h, text, view) {
        return Ok((reg, false));
      }
      view := Some(want);
      r := Ok((reg, true));
    }

    /** The row first, in one write; then the view from the whole stream. */
    method AppendCard(card: Card) returns (r: Result<(Registry, bool), LoadErr>)
      modifies this`stream, this`view
      ensures Abstract() == Loaded(h, Written(old(Abstract()), card))
      ensures r == LoadResult(h, Written(old(Abstract()), card))
    {
      hide ParseStream, EncodeView, Fold, Fresh, EncodeCard;
      stream := Some((if stream.Some? then stream.value else "") + EncodeCard(card) + "\n");
      r := LoadAndSync();
    }
  }

  // ---------- what a view claims ----------

  function CardValue(c: Card): Value {
    Obj(CardMembers(c))
  }

  lemma CardTextWritten(c: Card)
    ensures WriteValue(CardValue(c)) == EncodeCard(c) && Nest(CardValue(c)) <= 1
  {
    CardIsWritten(c);
  }

  lemma CardListWritten(key: string, cards: seq<Card>, texts: seq<string>)
    requires Plain(key) && |texts| == |cards|
    requires forall i :: 0 <= i < |cards| ==> texts[i] == EncodeCard(cards[i])
    ensures var items := seq(|cards|, i requires 0 <= i < |cards| => CardValue(cards[i]));
      && Writes((key, "[" + Listed(texts) + "]"), Member(key, Arr(items)))
      && Nest(Arr(items)) <= 2
  {
    hide EncodeCard, CardMembers, Plain;
    var items := seq(|cards|, i requires 0 <= i < |cards| => CardValue(cards[i]));
    forall i | 0 <= i < |cards| ensures WriteValue(items[i]) == texts[i] && Nest(items[i]) <= 1 {
      CardTextWritten(cards[i]);
    }
    ListIsWritten(texts, items);
    ItemsNestAtMost(items, 1);
  }

  /** A view claims the digest it was encoded with, or is too long to claim any. */
  lemma {:induction false} ViewClaims(reg: Registry, digest: string, rows: nat)
    ensures var view := EncodeView(reg, digest, rows);
      ClaimedDigest(view) == if Bytes(view) <= MAX_BYTES then Some(digest) else None
  {
    hide EncodeCard, Object, ClaimedDigest, ViewFields, Bytes, Ascending;
    var ids, lanes := Ordered(reg.providers.Keys), Ordered(reg.seats.Keys);
    var providers := ProvidersAt(reg, ids);
    var seats := SeatsAt(reg, lanes);
    ViewClaimsDigest(digest, rows, providers, seats, ProviderTexts(reg, ids), SeatTexts(reg, lanes));
  }

  function ProvidersAt(reg: Registry, keys: seq<string>): (cards: seq<Card>)
    requires forall k :: k in keys ==> k in reg.providers
    ensures |cards| == |keys| && forall i :: 0 <= i < |keys| ==> cards[i] == Provider(reg.providers[keys[i]])
  {
    seq(|keys|, i requires 0 <= i < |keys| => Provider(reg.providers[keys[i]]))
  }

  function SeatsAt(reg: Registry, keys: seq<string>): (cards: seq<Card>)
    requires forall k :: k in keys ==> k in reg.seats
    ensures |cards| == |keys| && forall i :: 0 <= i < |keys| ==> cards[i] == Seat(reg.seats[keys[i]])
  {
    seq(|keys|, i requires 0 <= i < |keys| => Seat(reg.seats[keys[i]]))
  }

  lemma ViewClaimsDigest(digest: string, rows: nat, providers: seq<Card>, seats: seq<Card>, pt: seq<string>,
      st: seq<string>)
    requires |pt| == |providers| && |st| == |seats|
    requires forall i :: 0 <= i < |providers| ==> pt[i] == EncodeCard(providers[i])
    requires forall i :: 0 <= i < |seats| ==> st[i] == EncodeCard(seats[i])
    ensures var view := Object(ViewFields(digest, rows, pt, st));
      ClaimedDigest(view) == if Bytes(view) <= MAX_BYTES then Some(digest) else None
  {
    ViewKeys();
    hide Plain, EncodeCard, Writes, Nest, Listed, ClaimedDigest, Bytes, Object, ViewFields, CardValue;
    CardListWritten("providers", providers, pt);
    CardListWritten("seats", seats, st);
    ViewReads(digest, rows, pt, st,
      seq(|providers|, i requires 0 <= i < |providers| => CardValue(providers[i])),
      seq(|seats|, i requires 0 <= i < |seats| => CardValue(seats[i])));
  }

  lemma ViewKeys()
    ensures Plain("stream_sha256") && Plain("rows") && Plain("providers") && Plain("seats")
  {
  }

  function ViewMembers(digest: string, rows: nat, providers: seq<Value>, seats: seq<Value>): seq<Member> {
    [Member("stream_sha256", Str(digest)), Member("rows", Num(Int(rows))),
     Member("providers", Arr(providers)), Member("seats", Arr(seats))]
  }

  lemma ViewReads(digest: string, rows: nat, pt: seq<string>, st: seq<string>, providers: seq<Value>,
      seats: seq<Value>)
    requires Writes(("providers", "[" + Listed(pt) + "]"), Member("providers", Arr(providers)))
      && Nest(Arr(providers)) <= 2
    requires Writes(("seats", "[" + Listed(st) + "]"), Member("seats", Arr(seats))) && Nest(Arr(seats)) <= 2
    ensures var view := Object(ViewFields(digest, rows, pt, st));
      && ClaimedDigest(view) == (if Bytes(view) <= MAX_BYTES then Some(digest) else None)
      && (Bytes(view) <= MAX_BYTES ==> Parse(view) == Ok(Obj(ViewMembers(digest, rows, providers, seats))))
  {
    ViewKeys();
    hide Writes, Parse, Bytes, Object, Listed, Plain, WriteStr, WriteValue, Dec, Nest;
    StrField("stream_sha256", digest);
    NatField("rows", rows);
    ScalarsNest(digest, rows);
    var fields := ViewFields(digest, rows, pt, st);
    var ms := ViewMembers(digest, rows, providers, seats);
    ObjectIsWritten(fields, ms);
    NestAtMost(ms, 2);
    RoundTrip(Obj(ms));
    TooLong(Object(fields));
    assert GetStr(ms, "stream_sha256") == Ok(digest);
  }

  lemma ScalarsNest(s: string, n: nat)
    ensures Nest(Str(s)) == 0 && Nest(Num(Int(n))) == 0
  {
  }

  lemma ViewOfClaims(h: Digest, text: string)
    requires ParseStream(text).Ok?
    ensures ClaimedDigest(ViewOf(h, text)) in {Some(h(text)), None}
  {
    hide ParseLines, Fold, EncodeView, ClaimedDigest;
    var cards := ParseStream(text).value;
    ViewClaims(Fold(cards), h(text), |cards|);
  }

  // ---------- every run of appends and loads ----------

  /** A row written, with or without its load; a load that got to its end. */
  datatype Event = Row(card: Card) | Load

  ghost function Next(h: Digest, s: Home, e: Event): Home {
    match e
    case Row(card) => Written(s, card)
    case Load => Loaded(h, s)
  }

  ghost function After(h: Digest, s: Home, es: seq<Event>): Home
    decreases |es|
  {
    if es == [] then s else After(h, Next(h, s, es[0]), es[1..])
  }

  /** A view that claims a stream's digest is that stream's view. */
  ghost predicate Honest(h: Digest, view: Option<string>, texts: set<string>) {
    forall t :: t in texts && Fresh(h, t, view) ==> ParseStream(t).Ok? && view == Some(ViewOf(h, t))
  }

  ghost predicate NoCollision(h: Digest, texts: set<string>) {
    forall a, b :: a in texts && b in texts && h(a) == h(b) ==> a == b
  }

  /** Every stream text of the run is among `texts`. */
  ghost predicate Within(h: Digest, s: Home, es: seq<Event>, texts: set<string>)
    decreases |es|
  {
    (s.stream.Some? ==> s.stream.value in texts) && (es != [] ==> Within(h, Next(h, s, es[0]), es[1..], texts))
  }

  lemma LoadLaw(h: Digest, s: Home)
    requires LoadResult(h, s).Ok?
    ensures ParseStream(s.stream.value).Ok?
    ensures Loaded(h, s).view == Some(ViewOf(h, s.stream.value))
      <==> (Fresh(h, s.stream.value, s.view) ==> s.view == Some(ViewOf(h, s.stream.value)))
  {
  }

  lemma NextHonest(h: Digest, s: Home, e: Event, texts: set<string>)
    requires NoCollision(h, texts) && Honest(h, s.view, texts) && (s.stream.Some? ==> s.stream.value in texts)
    ensures Honest(h, Next(h, s, e).view, texts)
  {
    hide ParseStream, EncodeCard, ClaimedDigest, EncodeView, Fold;
    var view := Next(h, s, e).view;
    if view != s.view {
      ViewOfClaims(h, s.stream.value);
      forall t | t in texts && Fresh(h, t, view) ensures t == s.stream.value {
        assert ClaimedDigest(view.value) == Some(h(t));
      }
    }
  }

  lemma {:induction false} RunHonest(h: Digest, s: Home, es: seq<Event>, texts: set<string>)
    requires NoCollision(h, texts) && Honest(h, s.view, texts) && Within(h, s, es, texts)
    ensures Honest(h, After(h, s, es).view, texts)
    ensures After(h, s, es).stream.Some? ==> After(h, s, es).stream.value in texts
    decreases |es|
  {
    hide Honest, Next, NoCollision;
    if es != [] {
      NextHonest(h, s, es[0], texts);
      RunHonest(h, Next(h, s, es[0]), es[1..], texts);
    }
  }

  /**
   Over every sequence of appends and loads, cut between the row and the view anywhere, from no view
   at all or any view that does not claim a digest it does not cache: a load that completes leaves
   exactly the view of the stream as it then is.
   */
  lemma {:induction false} CompletedLoadSyncs(h: Digest, s: Home, es: seq<Event>, texts: set<string>)
    requires NoCollision(h, texts) && Honest(h, s.view, texts) && Within(h, s, es, texts)
    requires LoadResult(h, After(h, s, es)).Ok?
    ensures var t := After(h, s, es);
      && ParseStream(t.stream.value).Ok?
      && Loaded(h, t) == Home(t.stream, Some(ViewOf(h, t.stream.value)))
      && LoadResult(h, t).value.0 == Fold(ParseStream(t.stream.value).value)
  {
    hide ParseStream, Fresh, After, EncodeView, Fold, Within, NoCollision;
    RunHonest(h, s, es, texts);
    LoadLaw(h, After(h, s, es));
  }
}
