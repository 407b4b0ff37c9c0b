/**
 What the card stream's parser promises of every line, stated over the members a line holds:
 crates/caddis-deliberate/src/registry.rs. Neither the encoders nor the parser's own readers are named.
 */
module CardLaws {
  import opened Wrappers
  import opened Text
  import opened Json
  import opened Decimals
  import opened Doubles
  import opened Flat
  import opened Members
  import opened Cards
  import opened CardStream

  // ---------- counts by name ----------

  /** A whole number of at most 32 bits. */
  ghost predicate HasU32(ms: seq<Member>, key: string, n: nat) {
    n < 0x1_0000_0000 && Has(ms, key, Num(Int(n)))
  }

  /** A whole number whose double is at most two to the 64, as that double cast to 64 bits. */
  ghost predicate HasU64(ms: seq<Member>, key: string, n: nat) {
    exists w: nat :: Has(ms, key, Num(Int(w))) && Saturates(w, n)
  }

  /** `n` is the double of `w`, or the largest count when that double is one more. */
  ghost predicate Saturates(w: nat, n: nat) {
    (Double(w) < 0x1_0000_0000_0000_0000 && n == Double(w))
    || (Double(w) == 0x1_0000_0000_0000_0000 && n == 0xFFFF_FFFF_FFFF_FFFF)
  }

  lemma U32Is(ms: seq<Member>, key: string)
    ensures forall n: nat :: GetU32(ms, key) == Ok(n) <==> HasU32(ms, key, n)
  {
    hide GetNum, Has;
    NumIs(ms, key);
    forall n: nat ensures GetU32(ms, key) == Ok(n) <==> HasU32(ms, key, n) {
      if GetU32(ms, key) == Ok(n) {
        assert HasNum(ms, key, GetNum(ms, key).value);
      }
      assert HasU32(ms, key, n) ==> HasNum(ms, key, Int(n));
    }
  }

  lemma U64Is(ms: seq<Member>, key: string)
    ensures forall n: nat :: GetU64(ms, key) == Ok(n) <==> HasU64(ms, key, n)
  {
    hide GetNum, Has, Double;
    NumIs(ms, key);
    forall n: nat ensures GetU64(ms, key) == Ok(n) <==> HasU64(ms, key, n) {
      if GetU64(ms, key) == Ok(n) {
        var d := GetNum(ms, key).value;
        assert HasNum(ms, key, d);
        assert Has(ms, key, Num(Int(d.Floor))) && Saturates(d.Floor, n);
      }
      if HasU64(ms, key, n) {
        var w: nat :| Has(ms, key, Num(Int(w))) && Saturates(w, n);
        assert HasNum(ms, key, Int(w));
      }
    }
  }

  // ---------- the words ----------

  ghost function LaneText(l: LaneType): string {
    if l.Http? then "http" else if l.Bridge? then "bridge" else "cli"
  }

  ghost function CostText(c: CostClass): string {
    if c.Free? then "free" else if c.Mid? then "mid" else "premium"
  }

  ghost function StateText(s: SeatState): string {
    if s.Live? then "live" else if s.Expired? then "expired" else if s.RateLimited? then "rate-limited"
    else if s.Retired? then "retired" else if s.Probing? then "probing" else if s.Failed? then "failed"
    else "unprobeable"
  }

  lemma WordsMean(w: string)
    ensures forall l :: ParseLane(w) == Ok(l) <==> w == LaneText(l)
    ensures forall c :: ParseCost(w) == Ok(c) <==> w == CostText(c)
    ensures forall s :: ParseState(w) == Ok(s) <==> w == StateText(s)
  {
  }

  // ---------- the members of a card ----------

  ghost predicate Scalar(v: Value) {
    v.Str? || v.Num? || v.Bool?
  }

  ghost predicate Only(ms: seq<Member>, keys: set<string>) {
    forall i :: 0 <= i < |ms| ==> ms[i].key in keys && Scalar(ms[i].value)
  }

  ghost predicate HasName(ms: seq<Member>, key: string, s: string) {
    s != "" && Has(ms, key, Str(s))
  }

  ghost predicate HasOptional(ms: seq<Member>, key: string, s: string) {
    Has(ms, key, Str(s)) || (s == "" && Lacks(ms, key))
  }

  ghost predicate SaysProvider(ms: seq<Member>, p: ProviderCard) {
    && Only(ms, {"class", "id", "lane_type", "base_url", "auth_path", "probe_path", "caps", "source"})
    && Has(ms, "class", Str("provider")) && HasName(ms, "id", p.id)
    && Has(ms, "lane_type", Str(LaneText(p.laneType))) && Has(ms, "base_url", Str(p.baseUrl))
    && Has(ms, "auth_path", Str(p.authPath)) && HasOptional(ms, "probe_path", p.probePath)
    && (p.probePath == "" || p.probePath[0] == '/')
    && HasU32(ms, "caps", p.caps) && HasName(ms, "source", p.source)
  }

  ghost predicate SaysSeat(ms: seq<Member>, s: SeatCard) {
    && Only(ms, {"class", "id", "provider", "family", "model", "lane_type", "cost_class", "state", "since_epoch_s",
        "caps", "cost_in_usd_per_mtok", "cost_out_usd_per_mtok", "context_window", "max_tokens", "source"})
    && Has(ms, "class", Str("seat")) && HasName(ms, "id", s.id) && HasName(ms, "provider", s.provider)
    && HasName(ms, "family", s.family) && HasName(ms, "model", s.model)
    && Has(ms, "lane_type", Str(LaneText(s.laneType))) && Has(ms, "cost_class", Str(CostText(s.costClass)))
    && Has(ms, "state", Str(StateText(s.state))) && HasU64(ms, "since_epoch_s", s.since)
    && HasU32(ms, "caps", s.caps) && HasNum(ms, "cost_in_usd_per_mtok", s.costIn)
    && HasNum(ms, "cost_out_usd_per_mtok", s.costOut) && HasU64(ms, "context_window", s.contextWindow)
    && HasU64(ms, "max_tokens", s.maxTokens) && HasName(ms, "source", s.source)
  }

  ghost predicate SaysCard(ms: seq<Member>, c: Card) {
    match c
    case Provider(p) => SaysProvider(ms, p)
    case Seat(s) => SaysSeat(ms, s)
  }

  lemma NameIs(ms: seq<Member>, key: string)
    ensures forall s :: NonEmpty(ms, key) == Ok(s) <==> HasName(ms, key, s)
  {
    hide GetStr, Has;
    StrIs(ms, key);
    forall s ensures NonEmpty(ms, key) == Ok(s) <==> HasName(ms, key, s) {
      assert GetStr(ms, key) == Ok(s) <==> Has(ms, key, Str(s));
    }
  }

  lemma OptionalIs(ms: seq<Member>, key: string)
    ensures forall s :: OptStr(ms, key) == Ok(s) <==> HasOptional(ms, key, s)
  {
    hide Get, Has, Lacks;
    LacksIs(ms, key);
    forall s ensures OptStr(ms, key) == Ok(s) <==> HasOptional(ms, key, s) {
      HasIs(ms, key, Str(s));
    }
  }

  lemma OnlyProvider(ms: seq<Member>)
    ensures IsFlat(ms) && ExactFields(ms, PROVIDER_FIELDS)
      <==> Only(ms, {"class", "id", "lane_type", "base_url", "auth_path", "probe_path", "caps", "source"})
  {
    var f := PROVIDER_FIELDS;
    assert forall w :: w in f <==>
      w in {"class", "id", "lane_type", "base_url", "auth_path", "probe_path", "caps", "source"} by {
      assert f[0] == "class" && f[1] == "id" && f[2] == "lane_type" && f[3] == "base_url" && f[4] == "auth_path";
      assert f[5] == "probe_path" && f[6] == "caps" && f[7] == "source";
    }
    hide PROVIDER_FIELDS;
  }

  lemma OnlySeat(ms: seq<Member>)
    ensures IsFlat(ms) && ExactFields(ms, SEAT_FIELDS)
      <==> Only(ms, {"class", "id", "provider", "family", "model", "lane_type", "cost_class", "state", "since_epoch_s",
        "caps", "cost_in_usd_per_mtok", "cost_out_usd_per_mtok", "context_window", "max_tokens", "source"})
  {
    var f := SEAT_FIELDS;
    assert forall w :: w in f <==>
      w in {"class", "id", "provider", "family", "model", "lane_type", "cost_class", "state", "since_epoch_s",
        "caps", "cost_in_usd_per_mtok", "cost_out_usd_per_mtok", "context_window", "max_tokens", "source"} by {
      assert f[0] == "class" && f[1] == "id" && f[2] == "provider" && f[3] == "family" && f[4] == "model";
      assert f[5] == "lane_type" && f[6] == "cost_class" && f[7] == "state" && f[8] == "since_epoch_s";
      assert f[9] == "caps" && f[10] == "cost_in_usd_per_mtok" && f[11] == "cost_out_usd_per_mtok";
      assert f[12] == "context_window" && f[13] == "max_tokens" && f[14] == "source";
    }
    hide SEAT_FIELDS;
  }

  // ---------- every object ----------

  ghost predicate ProviderRead(ms: seq<Member>, p: ProviderCard) {
    && OptStr(ms, "probe_path") == Ok(p.probePath) && AbsoluteOrEmpty(p.probePath)
    && NonEmpty(ms, "id") == Ok(p.id) && LaneRead(ms, p.laneType)
    && GetStr(ms, "base_url") == Ok(p.baseUrl) && GetStr(ms, "auth_path") == Ok(p.authPath)
    && GetU32(ms, "caps") == Ok(p.caps) && NonEmpty(ms, "source") == Ok(p.source)
  }

  ghost predicate LaneRead(ms: seq<Member>, l: LaneType) {
    GetStr(ms, "lane_type").Ok? && ParseLane(GetStr(ms, "lane_type").value) == Ok(l)
  }

  ghost predicate CostRead(ms: seq<Member>, c: CostClass) {
    GetStr(ms, "cost_class").Ok? && ParseCost(GetStr(ms, "cost_class").value) == Ok(c)
  }

  ghost predicate StateRead(ms: seq<Member>, s: SeatState) {
    GetStr(ms, "state").Ok? && ParseState(GetStr(ms, "state").value) == Ok(s)
  }

  lemma ProviderLaw(ms: seq<Member>, c: Card)
    requires ExactFields(ms, PROVIDER_FIELDS)
    ensures ParseProvider(ms) == Ok(c) <==> c.Provider? && ProviderRead(ms, c.p)
  {
    hide GetStr, NonEmpty, OptStr, GetU32, ParseLane, AbsoluteOrEmpty, ExactFields;
  }

  lemma SeatLaw(ms: seq<Member>, c: Card)
    requires ExactFields(ms, SEAT_FIELDS)
    ensures ParseSeat(ms) == Ok(c) <==> c.Seat? && SeatNamed(ms, c.s) && SeatCounted(ms, c.s)
  {
    hide GetStr, NonEmpty, GetU32, GetU64, GetNum, ParseLane, ParseCost, ParseState, ExactFields;
  }

  ghost predicate SeatNamed(ms: seq<Member>, s: SeatCard) {
    && NonEmpty(ms, "id") == Ok(s.id) && NonEmpty(ms, "provider") == Ok(s.provider)
    && NonEmpty(ms, "family") == Ok(s.family) && NonEmpty(ms, "model") == Ok(s.model)
    && LaneRead(ms, s.laneType) && CostRead(ms, s.costClass) && StateRead(ms, s.state)
    && NonEmpty(ms, "source") == Ok(s.source)
  }

  ghost predicate SeatCounted(ms: seq<Member>, s: SeatCard) {
    && GetU64(ms, "since_epoch_s") == Ok(s.since) && GetU32(ms, "caps") == Ok(s.caps)
    && GetNum(ms, "cost_in_usd_per_mtok") == Ok(s.costIn) && GetNum(ms, "cost_out_usd_per_mtok") == Ok(s.costOut)
    && GetU64(ms, "context_window") == Ok(s.contextWindow) && GetU64(ms, "max_tokens") == Ok(s.maxTokens)
  }

  lemma WordIs(ms: seq<Member>)
    ensures forall l :: LaneRead(ms, l) <==> Has(ms, "lane_type", Str(LaneText(l)))
    ensures forall c :: CostRead(ms, c) <==> Has(ms, "cost_class", Str(CostText(c)))
    ensures forall s :: StateRead(ms, s) <==> Has(ms, "state", Str(StateText(s)))
  {
    StrIs(ms, "lane_type");
    StrIs(ms, "cost_class");
    StrIs(ms, "state");
    hide GetStr, Has, ParseLane, ParseCost, ParseState, LaneText, CostText, StateText;
    forall w { WordsMean(w); }
    forall l ensures LaneRead(ms, l) <==> Has(ms, "lane_type", Str(LaneText(l))) {
      assert GetStr(ms, "lane_type") == Ok(LaneText(l)) <==> Has(ms, "lane_type", Str(LaneText(l)));
    }
    forall c ensures CostRead(ms, c) <==> Has(ms, "cost_class", Str(CostText(c))) {
      assert GetStr(ms, "cost_class") == Ok(CostText(c)) <==> Has(ms, "cost_class", Str(CostText(c)));
    }
    forall s ensures StateRead(ms, s) <==> Has(ms, "state", Str(StateText(s))) {
      assert GetStr(ms, "state") == Ok(StateText(s)) <==> Has(ms, "state", Str(StateText(s)));
    }
  }

  lemma ProviderMeans(ms: seq<Member>, p: ProviderCard)
    ensures SaysProvider(ms, p) <==>
      && IsFlat(ms) && ExactFields(ms, PROVIDER_FIELDS) && GetStr(ms, "class") == Ok("provider")
      && ProviderRead(ms, p)
  {
    OnlyProvider(ms);
    StrIs(ms, "class");
    NameIs(ms, "id");
    WordIs(ms);
    StrIs(ms, "base_url");
    StrIs(ms, "auth_path");
    OptionalIs(ms, "probe_path");
    U32Is(ms, "caps");
    NameIs(ms, "source");
    hide GetStr, NonEmpty, OptStr, GetU32, LaneRead, LaneText, ExactFields, IsFlat, Only, Has, HasName, HasOptional;
    hide HasU32;
    assert Has(ms, "class", Str("provider")) <==> GetStr(ms, "class") == Ok("provider");
  }

  lemma SeatNames(ms: seq<Member>, s: SeatCard)
    ensures SeatNamed(ms, s) <==>
      && HasName(ms, "id", s.id) && HasName(ms, "provider", s.provider)
      && HasName(ms, "family", s.family) && HasName(ms, "model", s.model)
      && Has(ms, "lane_type", Str(LaneText(s.laneType))) && Has(ms, "cost_class", Str(CostText(s.costClass)))
      && Has(ms, "state", Str(StateText(s.state))) && HasName(ms, "source", s.source)
  {
    NameIs(ms, "id");
    NameIs(ms, "provider");
    NameIs(ms, "family");
    NameIs(ms, "model");
    NameIs(ms, "source");
    WordIs(ms);
    hide GetStr, NonEmpty, LaneRead, CostRead, StateRead, LaneText, CostText, StateText, Has, HasName;
  }

  lemma SeatCounts(ms: seq<Member>, s: SeatCard)
    ensures SeatCounted(ms, s) <==>
      && HasU64(ms, "since_epoch_s", s.since)
      && HasU32(ms, "caps", s.caps) && HasNum(ms, "cost_in_usd_per_mtok", s.costIn)
      && HasNum(ms, "cost_out_usd_per_mtok", s.costOut) && HasU64(ms, "context_window", s.contextWindow)
      && HasU64(ms, "max_tokens", s.maxTokens)
  {
    U64Is(ms, "since_epoch_s");
    U32Is(ms, "caps");
    NumIs(ms, "cost_in_usd_per_mtok");
    NumIs(ms, "cost_out_usd_per_mtok");
    U64Is(ms, "context_window");
    U64Is(ms, "max_tokens");
    hide GetU64, GetU32, GetNum, HasU64, HasU32, HasNum;
  }

  lemma SeatMeans(ms: seq<Member>, s: SeatCard)
    ensures SaysSeat(ms, s) <==>
      && IsFlat(ms) && ExactFields(ms, SEAT_FIELDS) && GetStr(ms, "class") == Ok("seat")
      && SeatNamed(ms, s) && SeatCounted(ms, s)
  {
    OnlySeat(ms);
    StrIs(ms, "class");
    SeatNames(ms, s);
    SeatCounts(ms, s);
    hide SeatNamed, SeatCounted, GetStr, ExactFields, IsFlat, Only, Has, HasName, HasU32, HasU64, HasNum;
    assert Has(ms, "class", Str("seat")) <==> GetStr(ms, "class") == Ok("seat");
  }

  lemma NotExact(ms: seq<Member>)
    ensures !ExactFields(ms, PROVIDER_FIELDS) ==> ParseProvider(ms).Err?
    ensures !ExactFields(ms, SEAT_FIELDS) ==> ParseSeat(ms).Err?
  {
    hide ExactFields;
  }

  /** What the two kinds of object are read as. */
  lemma ByClass(ms: seq<Member>, c: Card)
    ensures CardStream.ParseObject(ms) == Ok(c) <==>
      && IsFlat(ms)
      && ((GetStr(ms, "class") == Ok("provider") && ParseProvider(ms) == Ok(c))
        || (GetStr(ms, "class") == Ok("seat") && ParseSeat(ms) == Ok(c)))
  {
    hide ParseProvider, ParseSeat, GetStr, IsFlat;
  }

  /** An object is read as a card exactly when its members say that card. */
  lemma {:induction false} ObjectMeans(ms: seq<Member>, c: Card)
    ensures CardStream.ParseObject(ms) == Ok(c) <==> SaysCard(ms, c)
  {
    ByClass(ms, c);
    hide CardStream.ParseObject, ParseProvider, ParseSeat, GetStr, IsFlat, ExactFields, SaysProvider, SaysSeat;
    hide SeatCounted, ProviderRead, SeatNamed;
    NotExact(ms);
    if ExactFields(ms, PROVIDER_FIELDS) {
      ProviderLaw(ms, c);
    }
    if ExactFields(ms, SEAT_FIELDS) {
      SeatLaw(ms, c);
    }
    match c
    case Provider(p) => ProviderMeans(ms, p);
    case Seat(s) => SeatMeans(ms, s);
  }

  /** A card as the parser gives one: of the right types, acceptable, and with counts a double holds. */
  ghost predicate Settled(c: Card) {
    Typed(c) && Acceptable(c) && CountsHeld(c)
  }

  lemma CountSettled(ms: seq<Member>, key: string, n: nat)
    requires HasU64(ms, key, n)
    ensures n < U64_LIMIT && Held(n)
  {
    hide Has, Double, Ulp;
    var w: nat :| Has(ms, key, Num(Int(w))) && Saturates(w, n);
    ReadIsHeld(w);
  }

  lemma SaidSettled(ms: seq<Member>, c: Card)
    requires SaysCard(ms, c)
    ensures Settled(c)
  {
    hide Has, HasU64, Held, Only;
    if c.Seat? {
      CountSettled(ms, "since_epoch_s", c.s.since);
      CountSettled(ms, "context_window", c.s.contextWindow);
      CountSettled(ms, "max_tokens", c.s.maxTokens);
    }
  }

  // ---------- every stream ----------

  /** The line, spaces aside, is one object that says the card. */
  ghost predicate LineSays(line: string, c: Card) {
    var r := Parse(Trim(line));
    r.Ok? && r.value.Obj? && SaysCard(r.value.members, c)
  }

  lemma {:induction false} LineMeans(line: string)
    ensures forall c :: ParseLine(Trim(line)) == Ok(c) <==> LineSays(line, c)
  {
    hide Parse, Trim, SaysCard, CardStream.ParseObject;
    forall c ensures ParseLine(Trim(line)) == Ok(c) <==> LineSays(line, c) {
      var r := Parse(Trim(line));
      if r.Ok? && r.value.Obj? {
        ObjectMeans(r.value.members, c);
      }
    }
  }

  ghost predicate IsCard(line: string) {
    exists c :: LineSays(line, c)
  }

  /** The lines from `at` on that are not blank, each saying the card of its place. */
  ghost predicate Spelt(places: seq<nat>, at: nat, lines: seq<string>, cards: seq<Card>) {
    && |places| == |cards|
    && (forall j, k :: 0 <= j < k < |places| ==> places[j] < places[k])
    && (forall i :: i in places <==> at <= i < |lines| && Trim(lines[i]) != "")
    && forall k :: 0 <= k < |places| ==> places[k] < |lines| && LineSays(lines[places[k]], cards[k])
  }

  /** The first line from `at` on that is neither blank nor a card. */
  ghost predicate Broken(n: nat, at: nat, lines: seq<string>) {
    && at < n <= |lines| && Trim(lines[n - 1]) != "" && !IsCard(lines[n - 1])
    && forall i :: at <= i < n - 1 && Trim(lines[i]) != "" ==> IsCard(lines[i])
  }

  lemma SpeltCons(place: nat, places: seq<nat>, lines: seq<string>, c: Card, cards: seq<Card>)
    requires place < |lines| && Trim(lines[place]) != "" && LineSays(lines[place], c)
    requires Spelt(places, place + 1, lines, cards)
    ensures Spelt([place] + places, place, lines, [c] + cards)
  {
    hide LineSays, Trim;
    var all, said := [place] + places, [c] + cards;
    assert forall i :: i in all <==> i == place || i in places;
    forall k | 0 <= k < |places| ensures place < places[k] {
      assert places[k] in places;
    }
    forall j, k | 0 <= j < k < |all| ensures all[j] < all[k] {
      assert j > 0 ==> places[j - 1] < places[k - 1];
      assert all[k] == places[k - 1];
    }
    forall k | 0 <= k < |all| ensures all[k] < |lines| && LineSays(lines[all[k]], said[k]) {
      assert k > 0 ==> all[k] == places[k - 1] && said[k] == cards[k - 1];
    }
  }

  lemma {:induction false} LinesMean(lines: seq<string>, at: nat)
    requires at <= |lines|
    ensures var r := ParseLines(lines[at..], at + 1);
      && (r.Ok? ==> exists places :: Spelt(places, at, lines, r.value))
      && (r.Err? ==> Broken(r.error, at, lines))
    decreases |lines| - at
  {
    hide ParseLine, Trim, LineSays, Spelt;
    var rest := lines[at..];
    if at == |lines| {
      assert Spelt([], at, lines, []) by {
        NothingSpelt(lines);
      }
    } else {
      LinesMean(lines, at + 1);
      assert rest[1..] == lines[at + 1..] && rest[0] == lines[at];
      LineMeans(lines[at]);
      assert IsCard(lines[at]) <==> ParseLine(Trim(lines[at])).Ok? by {
        assert forall c :: ParseLine(Trim(lines[at])) == Ok(c) <==> LineSays(lines[at], c);
      }
      hide IsCard;
      var t := Trim(lines[at]);
      var r, next := ParseLines(rest, at + 1), ParseLines(rest[1..], at + 2);
      if t == "" {
        if next.Ok? {
          var places :| Spelt(places, at + 1, lines, next.value);
          SpeltBlank(places, at, lines, next.value);
        }
      } else if ParseLine(t).Ok? && next.Ok? {
        var places :| Spelt(places, at + 1, lines, next.value);
        SpeltCons(at, places, lines, ParseLine(t).value, next.value);
        assert Spelt([at] + places, at, lines, r.value);
      }
    }
  }

  lemma NothingSpelt(lines: seq<string>)
    ensures Spelt([], |lines|, lines, [])
  {
  }

  lemma SpeltBlank(places: seq<nat>, at: nat, lines: seq<string>, cards: seq<Card>)
    requires at < |lines| && Trim(lines[at]) == "" && Spelt(places, at + 1, lines, cards)
    ensures Spelt(places, at, lines, cards)
  {
    hide Trim, LineSays;
  }

  /**
   Every stream: the cards its lines say, in order and none of them dropped, or the number of the first
   line that is neither blank nor a card.
   */
  lemma {:induction false} StreamMeans(text: string)
    ensures var r := ParseStream(text);
      && (r.Ok? ==> exists places :: Spelt(places, 0, Lines(text), r.value))
      && (r.Err? ==> Broken(r.error, 0, Lines(text)))
  {
    hide ParseLines, Lines, Spelt, Broken;
    assert Lines(text)[0..] == Lines(text);
    LinesMean(Lines(text), 0);
  }
}
