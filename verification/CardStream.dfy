/**
 The card stream's grammar: the encoders and the exact-field parser of
 crates/caddis-deliberate/src/registry.rs. Refusals carry the line number, as there, and no message.
 */
module CardStream {
  import opened Wrappers
  import opened Text
  import opened Json
  import opened Decimals
  import opened JsonRoundTrip
  import opened Flat
  import opened Cards

  // ---------- the vocabularies ----------

  function LaneWord(l: LaneType): string {
    match l
    case Http => "http"
    case Bridge => "bridge"
    case Cli => "cli"
  }

  function ParseLane(w: string): Result<LaneType, FieldErr> {
    if w == "http" then Ok(Http)
    else if w == "bridge" then Ok(Bridge)
    else if w == "cli" then Ok(Cli)
    else Err(BadField)
  }

  function CostWord(c: CostClass): string {
    match c
    case Free => "free"
    case Mid => "mid"
    case Premium => "premium"
  }

  function ParseCost(w: string): Result<CostClass, FieldErr> {
    if w == "free" then Ok(Free)
    else if w == "mid" then Ok(Mid)
    else if w == "premium" then Ok(Premium)
    else Err(BadField)
  }

  function StateWord(s: SeatState): string {
    match s
    case Live => "live"
    case Expired => "expired"
    case RateLimited => "rate-limited"
    case Retired => "retired"
    case Probing => "probing"
    case Failed => "failed"
    case Unprobeable => "unprobeable"
  }

  function ParseState(w: string): Result<SeatState, FieldErr> {
    if w == "live" then Ok(Live)
    else if w == "expired" then Ok(Expired)
    else if w == "rate-limited" then Ok(RateLimited)
    else if w == "retired" then Ok(Retired)
    else if w == "probing" then Ok(Probing)
    else if w == "failed" then Ok(Failed)
    else if w == "unprobeable" then Ok(Unprobeable)
    else Err(BadField)
  }

  lemma LaneReads(l: LaneType)
    ensures ParseLane(LaneWord(l)) == Ok(l) && Plain(LaneWord(l))
  {
  }

  lemma CostReads(c: CostClass)
    ensures ParseCost(CostWord(c)) == Ok(c) && Plain(CostWord(c))
  {
  }

  lemma StateReads(s: SeatState)
    ensures ParseState(StateWord(s)) == Ok(s) && Plain(StateWord(s))
  {
  }

  // ---------- encode ----------

  const PROVIDER_FIELDS: seq<string> := [
    "class", "id", "lane_type", "base_url", "auth_path", "probe_path", "caps", "source"]

  const SEAT_FIELDS: seq<string> := [
    "class", "id", "provider", "family", "model", "lane_type", "cost_class", "state", "since_epoch_s", "caps",
    "cost_in_usd_per_mtok", "cost_out_usd_per_mtok", "context_window", "max_tokens", "source"]

  function ProviderFields(p: ProviderCard): seq<(string, string)> {
    [("class", Word("provider")), ("id", WriteStr(p.id)), ("lane_type", Word(LaneWord(p.laneType))),
     ("base_url", WriteStr(p.baseUrl)), ("auth_path", WriteStr(p.authPath)), ("probe_path", WriteStr(p.probePath)),
     ("caps", Dec(p.caps)), ("source", WriteStr(p.source))]
  }

  function SeatFields(s: SeatCard): seq<(string, string)> {
    [("class", Word("seat")), ("id", WriteStr(s.id)), ("provider", WriteStr(s.provider)),
     ("family", WriteStr(s.family)),
     ("model", WriteStr(s.model)), ("lane_type", Word(LaneWord(s.laneType))),
     ("cost_class", Word(CostWord(s.costClass))),
     ("state", Word(StateWord(s.state))), ("since_epoch_s", Dec(s.since)), ("caps", Dec(s.caps)),
     ("cost_in_usd_per_mtok", WriteNum(s.costIn)), ("cost_out_usd_per_mtok", WriteNum(s.costOut)),
     ("context_window", Dec(s.contextWindow)), ("max_tokens", Dec(s.maxTokens)), ("source", WriteStr(s.source))]
  }

  function EncodeCard(c: Card): string {
    match c
    case Provider(p) => Object(ProviderFields(p))
    case Seat(s) => Object(SeatFields(s))
  }

  function RenderSeed(cards: seq<Card>): string
    decreases |cards|
  {
    if cards == [] then "" else EncodeCard(cards[0]) + "\n" + RenderSeed(cards[1..])
  }

  // ---------- parse ----------

  const U32_MAX: nat := 0xFFFF_FFFF

  function GetU32(ms: seq<Member>, key: string): Result<nat, FieldErr> {
    var n :- GetNum(ms, key);
    if !IsWhole(n) || n > U32_MAX as real then Err(BadField) else Ok(n.Floor)
  }

  /** The count is a double: it is rounded, the bound is `u64::MAX as f64`, and the cast back saturates. */
  function GetU64(ms: seq<Member>, key: string): Result<nat, FieldErr> {
    var n :- GetNum(ms, key);
    if !IsWhole(n) || Double(n.Floor) > U64_LIMIT then Err(BadField) else Ok(ReadCount(n.Floor))
  }

  function NonEmpty(ms: seq<Member>, key: string): Result<string, FieldErr> {
    var s :- GetStr(ms, key);
    if s == "" then Err(BadField) else Ok(s)
  }

  /** A field that may be absent, but not of another type. */
  function OptStr(ms: seq<Member>, key: string): Result<string, FieldErr> {
    if Get(ms, key).None? then Ok("") else GetStr(ms, key)
  }

  predicate ExactFields(ms: seq<Member>, want: seq<string>) {
    forall i :: 0 <= i < |ms| ==> ms[i].key in want
  }

  predicate AbsoluteOrEmpty(path: string) {
    path == "" || path[0] == '/'
  }

  function ParseProvider(ms: seq<Member>): Result<Card, FieldErr> {
    if !ExactFields(ms, PROVIDER_FIELDS) then Err(BadField)
    else
      var probePath :- OptStr(ms, "probe_path");
      if !AbsoluteOrEmpty(probePath) then Err(BadField)
      else
        var id :- NonEmpty(ms, "id");
        var lane :- GetStr(ms, "lane_type");
        var laneType :- ParseLane(lane);
        var baseUrl :- GetStr(ms, "base_url");
        var authPath :- GetStr(ms, "auth_path");
        var caps :- GetU32(ms, "caps");
        var source :- NonEmpty(ms, "source");
        Ok(Provider(ProviderCard(id, laneType, baseUrl, authPath, probePath, caps, source)))
  }

  function ParseSeat(ms: seq<Member>): Result<Card, FieldErr> {
    if !ExactFields(ms, SEAT_FIELDS) then Err(BadField)
    else
      var costWord :- GetStr(ms, "cost_class");
      var stateWord :- GetStr(ms, "state");
      var id :- NonEmpty(ms, "id");
      var provider :- NonEmpty(ms, "provider");
      var family :- NonEmpty(ms, "family");
      var model :- NonEmpty(ms, "model");
      var lane :- GetStr(ms, "lane_type");
      var laneType :- ParseLane(lane);
      var costClass :- ParseCost(costWord);
      var state :- ParseState(stateWord);
      var since :- GetU64(ms, "since_epoch_s");
      var caps :- GetU32(ms, "caps");
      var costIn :- GetNum(ms, "cost_in_usd_per_mtok");
      var costOut :- GetNum(ms, "cost_out_usd_per_mtok");
      var contextWindow :- GetU64(ms, "context_window");
      var maxTokens :- GetU64(ms, "max_tokens");
      var source :- NonEmpty(ms, "source");
      Ok(Seat(SeatCard(id, provider, family, model, laneType, costClass, state, since, caps, costIn, costOut,
        contextWindow, maxTokens, source)))
  }

  predicate IsFlat(ms: seq<Member>) {
    forall i :: 0 <= i < |ms| ==> ms[i].value.Str? || ms[i].value.Num? || ms[i].value.Bool?
  }

  function ParseObject(ms: seq<Member>): Result<Card, FieldErr> {
    if !IsFlat(ms) then Err(BadField)
    else
      var class_ :- GetStr(ms, "class");
      if class_ == "provider" then ParseProvider(ms)
      else if class_ == "seat" then ParseSeat(ms)
      else Err(BadField)
  }

  function ParseLine(t: string): Result<Card, FieldErr> {
    match Parse(t)
    case Err(_) => Err(BadField)
    case Ok(v) => if !v.Obj? then Err(BadField) else ParseObject(v.members)
  }

  /** The cards of the lines, or the number of the first line that is none, counting from `lineNo`. */
  function ParseLines(lines: seq<string>, lineNo: nat): Result<seq<Card>, nat>
    decreases |lines|
  {
    if lines == [] then Ok([])
    else
      var t := Trim(lines[0]);
      if t == "" then ParseLines(lines[1..], lineNo + 1)
      else
        match ParseLine(t)
        case Err(_) => Err(lineNo)
        case Ok(card) =>
          match ParseLines(lines[1..], lineNo + 1)
          case Err(n) => Err(n)
          case Ok(cards) => Ok([card] + cards)
  }

  function ParseStream(text: string): Result<seq<Card>, nat> {
    ParseLines(Lines(text), 1)
  }

  // ---------- a card's line ----------

  function ProviderMembers(p: ProviderCard): seq<Member> {
    [Member("class", Str("provider")), Member("id", Str(p.id)), Member("lane_type", Str(LaneWord(p.laneType))),
     Member("base_url", Str(p.baseUrl)), Member("auth_path", Str(p.authPath)), Member("probe_path", Str(p.probePath)),
     Member("caps", Num(Int(p.caps))), Member("source", Str(p.source))]
  }

  function SeatMembers(s: SeatCard): seq<Member> {
    [Member("class", Str("seat")), Member("id", Str(s.id)), Member("provider", Str(s.provider)),
     Member("family", Str(s.family)),
     Member("model", Str(s.model)), Member("lane_type", Str(LaneWord(s.laneType))),
     Member("cost_class", Str(CostWord(s.costClass))), Member("state", Str(StateWord(s.state))),
     Member("since_epoch_s", Num(Int(s.since))), Member("caps", Num(Int(s.caps))),
     Member("cost_in_usd_per_mtok", Num(s.costIn)), Member("cost_out_usd_per_mtok", Num(s.costOut)),
     Member("context_window", Num(Int(s.contextWindow))), Member("max_tokens", Num(Int(s.maxTokens))),
     Member("source", Str(s.source))]
  }

  function CardMembers(c: Card): seq<Member> {
    match c
    case Provider(p) => ProviderMembers(p)
    case Seat(s) => SeatMembers(s)
  }

  lemma ProviderNames()
    ensures forall i :: 0 <= i < |PROVIDER_FIELDS| ==> Plain(PROVIDER_FIELDS[i])
    ensures Plain("provider")
  {
  }

  lemma SeatTextNames()
    ensures forall i :: 0 <= i < 8 ==> Plain(SEAT_FIELDS[i])
    ensures Plain("seat")
  {
  }

  lemma SeatNumberNames()
    ensures forall i :: 8 <= i < |SEAT_FIELDS| ==> Plain(SEAT_FIELDS[i])
  {
  }

  lemma FieldNamesDiffer()
    ensures forall i, j :: 0 <= i < j < |PROVIDER_FIELDS| ==> PROVIDER_FIELDS[i] != PROVIDER_FIELDS[j]
    ensures forall i, j :: 0 <= i < j < |SEAT_FIELDS| ==> SEAT_FIELDS[i] != SEAT_FIELDS[j]
  {
  }

  lemma NumField(key: string, n: Decimal)
    requires Plain(key)
    ensures Writes((key, WriteNum(n)), Member(key, Num(n)))
  {
  }

  lemma ProviderWritten(p: ProviderCard)
    ensures WritesAll(ProviderFields(p), ProviderMembers(p))
  {
    ProviderNames();
    LaneReads(p.laneType);
    hide Plain, Dec, WriteStr, Word, Writes, LaneWord;
    var f := PROVIDER_FIELDS;
    WordField(f[0], "provider");
    StrField(f[1], p.id);
    WordField(f[2], LaneWord(p.laneType));
    StrField(f[3], p.baseUrl);
    StrField(f[4], p.authPath);
    StrField(f[5], p.probePath);
    NatField(f[6], p.caps);
    StrField(f[7], p.source);
  }

  lemma SeatTexts(s: SeatCard)
    ensures forall i :: 0 <= i < 8 ==> Writes(SeatFields(s)[i], SeatMembers(s)[i])
  {
    SeatTextNames();
    LaneReads(s.laneType);
    CostReads(s.costClass);
    StateReads(s.state);
    hide Plain, Dec, WriteStr, WriteNum, Word, Writes, LaneWord, CostWord, StateWord;
    var f := SEAT_FIELDS;
    WordField(f[0], "seat");
    StrField(f[1], s.id);
    StrField(f[2], s.provider);
    StrField(f[3], s.family);
    StrField(f[4], s.model);
    WordField(f[5], LaneWord(s.laneType));
    WordField(f[6], CostWord(s.costClass));
    WordField(f[7], StateWord(s.state));
  }

  lemma SeatNumbers(s: SeatCard)
    ensures forall i :: 8 <= i < 15 ==> Writes(SeatFields(s)[i], SeatMembers(s)[i])
  {
    SeatNumberNames();
    hide Plain, Dec, WriteStr, WriteNum, Word, Writes, LaneWord, CostWord, StateWord;
    var f := SEAT_FIELDS;
    NatField(f[8], s.since);
    NatField(f[9], s.caps);
    NumField(f[10], s.costIn);
    NumField(f[11], s.costOut);
    NatField(f[12], s.contextWindow);
    NatField(f[13], s.maxTokens);
    StrField(f[14], s.source);
  }

  /** A card's line is what the JSON writer makes of it. */
  lemma {:induction false} CardIsWritten(c: Card)
    ensures EncodeCard(c) == WriteValue(Obj(CardMembers(c)))
    ensures Nest(Obj(CardMembers(c))) <= 1
  {
    NestAtMost(CardMembers(c), 0);
    match c
    case Provider(p) =>
      ProviderWritten(p);
      hide Writes, WriteValue, Object, Nest;
      ObjectIsWritten(ProviderFields(p), ProviderMembers(p));
    case Seat(s) =>
      SeatTexts(s);
      SeatNumbers(s);
      hide Writes, WriteValue, Object, Nest;
      ObjectIsWritten(SeatFields(s), SeatMembers(s));
  }

  // ---------- reading a card's line ----------

  /** What the Rust types guarantee of a card's counts. */
  ghost predicate Typed(c: Card) {
    match c
    case Provider(p) => p.caps <= U32_MAX
    case Seat(s) => s.caps <= U32_MAX && s.since < U64_LIMIT && s.contextWindow < U64_LIMIT && s.maxTokens < U64_LIMIT
  }

  /** The card with its 64-bit counts as a reader gets them. */
  function AsRead(c: Card): Card {
    match c
    case Provider(_) => c
    case Seat(s) =>
      Seat(s.(since := ReadCount(s.since),
            contextWindow := ReadCount(s.contextWindow), maxTokens := ReadCount(s.maxTokens)))
  }

  predicate CountsHeld(c: Card) {
    c.Seat? ==> Held(c.s.since) && Held(c.s.contextWindow) && Held(c.s.maxTokens)
  }

  lemma HeldAreRead(c: Card)
    requires Typed(c)
    ensures AsRead(c) == c <==> CountsHeld(c)
  {
    if c.Seat? {
      CountKept(c.s.since);
      CountKept(c.s.contextWindow);
      CountKept(c.s.maxTokens);
    }
    hide ReadCount, Held;
  }

  /** What the parser asks of a card beyond its types. */
  predicate Acceptable(c: Card) {
    match c
    case Provider(p) => p.id != "" && p.source != "" && AbsoluteOrEmpty(p.probePath)
    case Seat(s) =>
      && s.id != "" && s.provider != "" && s.family != "" && s.model != "" && s.source != ""
      && s.costIn >= 0.0 && s.costOut >= 0.0
  }

  lemma U32Reads(ms: seq<Member>, i: nat, n: nat)
    requires i < |ms| && DistinctKeys(ms) && ms[i].value == Num(Int(n)) && n <= U32_MAX
    ensures GetU32(ms, ms[i].key) == Ok(n)
  {
    NumReads(ms, i, Int(n));
  }

  lemma U64Reads(ms: seq<Member>, i: nat, n: nat)
    requires i < |ms| && DistinctKeys(ms) && ms[i].value == Num(Int(n)) && n < U64_LIMIT
    ensures GetU64(ms, ms[i].key) == Ok(ReadCount(n))
  {
    NumReads(ms, i, Int(n));
    DoubleFits(n);
  }

  function Checked(s: string): Result<string, FieldErr> {
    if s == "" then Err(BadField) else Ok(s)
  }

  lemma NonEmptyReads(ms: seq<Member>, i: nat, s: string)
    requires i < |ms| && DistinctKeys(ms) && ms[i].value == Str(s)
    ensures NonEmpty(ms, ms[i].key) == Checked(s)
    ensures GetStr(ms, ms[i].key) == Ok(s)
  {
    StrReads(ms, i, s);
  }

  lemma OptReads(ms: seq<Member>, i: nat, s: string)
    requires i < |ms| && DistinctKeys(ms) && ms[i].value == Str(s)
    ensures OptStr(ms, ms[i].key) == Ok(s)
  {
    GetAt(ms, i);
  }

  lemma CardKeys(c: Card)
    ensures DistinctKeys(CardMembers(c)) && IsFlat(CardMembers(c))
    ensures ExactFields(CardMembers(c), if c.Provider? then PROVIDER_FIELDS else SEAT_FIELDS)
  {
    FieldNamesDiffer();
    hide LaneWord, CostWord, StateWord;
    var ms := CardMembers(c);
    var want := if c.Provider? then PROVIDER_FIELDS else SEAT_FIELDS;
    forall i | 0 <= i < |ms| ensures ms[i].key == want[i] {
    }
    assert |ms| == |want|;
  }

  lemma ProviderReads(p: ProviderCard)
    requires p.caps <= U32_MAX
    ensures ParseProvider(ProviderMembers(p)) == if Acceptable(Provider(p)) then Ok(Provider(p)) else Err(BadField)
  {
    var ms := ProviderMembers(p);
    CardKeys(Provider(p));
    LaneReads(p.laneType);
    hide GetStr, NonEmpty, OptStr, GetU32, DistinctKeys, Plain, LaneWord, ParseLane, ExactFields;
    NonEmptyReads(ms, 1, p.id);
    StrReads(ms, 2, LaneWord(p.laneType));
    StrReads(ms, 3, p.baseUrl);
    StrReads(ms, 4, p.authPath);
    OptReads(ms, 5, p.probePath);
    U32Reads(ms, 6, p.caps);
    NonEmptyReads(ms, 7, p.source);
  }

  lemma SeatNames(s: SeatCard)
    ensures var ms := SeatMembers(s);
      && NonEmpty(ms, "id") == Checked(s.id) && NonEmpty(ms, "provider") == Checked(s.provider)
      && NonEmpty(ms, "family") == Checked(s.family) && NonEmpty(ms, "model") == Checked(s.model)
  {
    var ms := SeatMembers(s);
    CardKeys(Seat(s));
    hide GetStr, NonEmpty, DistinctKeys, ExactFields, LaneWord, CostWord, StateWord, Checked;
    NonEmptyReads(ms, 1, s.id);
    NonEmptyReads(ms, 2, s.provider);
    NonEmptyReads(ms, 3, s.family);
    NonEmptyReads(ms, 4, s.model);
  }

  lemma SeatStrings(s: SeatCard)
    ensures var ms := SeatMembers(s);
      && GetStr(ms, "lane_type") == Ok(LaneWord(s.laneType)) && GetStr(ms, "cost_class") == Ok(CostWord(s.costClass))
      && GetStr(ms, "state") == Ok(StateWord(s.state)) && NonEmpty(ms, "source") == Checked(s.source)
  {
    var ms := SeatMembers(s);
    CardKeys(Seat(s));
    hide GetStr, NonEmpty, DistinctKeys, ExactFields, LaneWord, CostWord, StateWord, Checked;
    StrReads(ms, 5, LaneWord(s.laneType));
    StrReads(ms, 6, CostWord(s.costClass));
    StrReads(ms, 7, StateWord(s.state));
    NonEmptyReads(ms, 14, s.source);
  }

  lemma SeatFigures(s: SeatCard)
    requires Typed(Seat(s))
    ensures var ms := SeatMembers(s);
      && GetU64(ms, "since_epoch_s") == Ok(ReadCount(s.since)) && GetU32(ms, "caps") == Ok(s.caps)
      && GetNum(ms, "cost_in_usd_per_mtok") == (if s.costIn >= 0.0 then Ok(s.costIn) else Err(BadField))
      && GetNum(ms, "cost_out_usd_per_mtok") == (if s.costOut >= 0.0 then Ok(s.costOut) else Err(BadField))
      && GetU64(ms, "context_window") == Ok(ReadCount(s.contextWindow))
      && GetU64(ms, "max_tokens") == Ok(ReadCount(s.maxTokens))
  {
    var ms := SeatMembers(s);
    CardKeys(Seat(s));
    hide GetNum, GetU32, GetU64, DistinctKeys, ExactFields, LaneWord, CostWord, StateWord, ReadCount;
    U64Reads(ms, 8, s.since);
    U32Reads(ms, 9, s.caps);
    NumReads(ms, 10, s.costIn);
    NumReads(ms, 11, s.costOut);
    U64Reads(ms, 12, s.contextWindow);
    U64Reads(ms, 13, s.maxTokens);
  }

  lemma SeatReads(s: SeatCard)
    requires Typed(Seat(s))
    ensures ParseSeat(SeatMembers(s)) == if Acceptable(Seat(s)) then Ok(AsRead(Seat(s))) else Err(BadField)
  {
    CardKeys(Seat(s));
    LaneReads(s.laneType);
    CostReads(s.costClass);
    StateReads(s.state);
    SeatNames(s);
    SeatStrings(s);
    SeatFigures(s);
    hide SeatMembers, GetStr, GetNum, NonEmpty, GetU32, GetU64, DistinctKeys, IsFlat, Plain, ExactFields, ReadCount;
    hide LaneWord, ParseLane, CostWord, ParseCost, StateWord, ParseState;
  }

  lemma ObjectReads(c: Card)
    requires Typed(c)
    ensures ParseObject(CardMembers(c)) == if Acceptable(c) then Ok(AsRead(c)) else Err(BadField)
  {
    CardKeys(c);
    hide ParseProvider, ParseSeat, DistinctKeys, Acceptable, GetStr;
    match c
    case Provider(p) =>
      ProviderReads(p);
      StrReads(ProviderMembers(p), 0, "provider");
    case Seat(s) =>
      SeatReads(s);
      StrReads(SeatMembers(s), 0, "seat");
  }

  /** What a card's line parses to: the card with its counts as read, or a refusal. */
  lemma {:induction false} LineReads(c: Card)
    requires Typed(c)
    ensures ParseLine(EncodeCard(c)) ==
      if Acceptable(c) && Bytes(EncodeCard(c)) <= MAX_BYTES then Ok(AsRead(c)) else Err(BadField)
    ensures ParseLine(EncodeCard(c)) == Ok(c) <==>
      Acceptable(c) && Bytes(EncodeCard(c)) <= MAX_BYTES && CountsHeld(c)
  {
    hide Parse, Bytes, ParseObject, EncodeCard, CardMembers, Acceptable, WriteValue, Nest, AsRead, CountsHeld, Typed;
    CardIsWritten(c);
    ObjectReads(c);
    RoundTrip(Obj(CardMembers(c)));
    TooLong(EncodeCard(c));
    HeldAreRead(c);
  }

  // ---------- reading a stream ----------

  lemma TrimBraced(line: string)
    requires |line| >= 2 && line[0] == '{' && line[|line| - 1] == '}'
    ensures Trim(line) == line
  {
  }

  lemma CardLine(c: Card)
    ensures Lines(EncodeCard(c) + "\n") == [EncodeCard(c)] && Trim(EncodeCard(c)) == EncodeCard(c) != ""
  {
    hide Pairs, ProviderFields, SeatFields, CardMembers, WriteMembers, WriteValue, Nest, Trim;
    CardIsWritten(c);
    WrittenPrintable(Obj(CardMembers(c)));
    OneLine(EncodeCard(c));
    TrimBraced(EncodeCard(c));
  }

  function AllAsRead(cards: seq<Card>): seq<Card> {
    if cards == [] then [] else [AsRead(cards[0])] + AllAsRead(cards[1..])
  }

  lemma {:induction false} AllHeld(cards: seq<Card>)
    requires forall c :: c in cards ==> Typed(c)
    ensures AllAsRead(cards) == cards <==> forall c :: c in cards ==> CountsHeld(c)
  {
    hide AsRead, CountsHeld, Typed;
    if cards != [] {
      var c, rest := cards[0], cards[1..];
      HeldAreRead(c);
      AllHeld(rest);
      assert cards == [c] + rest;
      assert AllAsRead(cards)[0] == AsRead(c) && AllAsRead(cards)[1..] == AllAsRead(rest);
    }
  }

  lemma {:induction false} LinesRead(cards: seq<Card>, lineNo: nat)
    requires forall c :: c in cards ==> Typed(c)
    ensures var r := ParseLines(Lines(RenderSeed(cards)), lineNo);
      && (r.Ok? <==> forall c :: c in cards ==> Acceptable(c) && Bytes(EncodeCard(c)) <= MAX_BYTES)
      && (r.Ok? ==> r.value == AllAsRead(cards))
    decreases |cards|
  {
    hide ParseLine, Trim, Bytes, EncodeCard, Acceptable, Typed, AsRead, CountsHeld;
    if cards == [] {
      assert Lines("") == [];
    } else {
      hide Lines;
      var c, rest := cards[0], cards[1..];
      CardLine(c);
      LineReads(c);
      LinesRead(rest, lineNo + 1);
      LinesAppend(EncodeCard(c) + "\n", RenderSeed(rest));
      var lines := Lines(RenderSeed(cards));
      assert lines == [EncodeCard(c)] + Lines(RenderSeed(rest));
      assert lines[1..] == Lines(RenderSeed(rest));
      assert cards == [c] + rest;
    }
  }

  /**
   Parsing a rendered stream gives back the same cards in the same order, whatever their strings
   hold and whatever they cost, exactly when every card is one the parser accepts, no line passes its
   cap, and every 64-bit count is one a double holds.
   */
  lemma {:induction false} StreamRoundTrip(cards: seq<Card>)
    requires forall c :: c in cards ==> Typed(c)
    ensures ParseStream(RenderSeed(cards)) == Ok(cards)
      <==> forall c :: c in cards ==> Acceptable(c) && Bytes(EncodeCard(c)) <= MAX_BYTES && CountsHeld(c)
  {
    hide ParseLines, Lines, RenderSeed, Acceptable, Bytes, EncodeCard, CountsHeld, Typed, AsRead;
    LinesRead(cards, 1);
    AllHeld(cards);
  }
}
