/**
 Concurrency caps and the dispatch planner: crates/caddis-deliberate/src/caps.rs. The greedy plan
 spells the wanted list, respects every cap, and uses as few waves as any plan can.
 */
module Caps {
  import opened Wrappers
  import opened BTree
  import opened Cards
  import opened Decimals

  // ---------- the cap law ----------

  predicate Ruled(provider: string) {
    provider == "ollama" || provider == "ollama-cloud"
  }

  function HardCeiling(provider: string): Option<nat> {
    if Ruled(provider) then Some(2) else None
  }

  datatype CapsErr =
    | ZeroCaps(provider: string)
    | AboveHardCeiling(provider: string, caps: nat, ceiling: nat)
    | SeatAboveProvider(seat: string, seatCaps: nat, provider: string, providerCaps: nat)
    | UnknownSeat(seat: string)
    | SeatMissingProvider(seat: string, provider: string)

  function CheckProviderCaps(provider: string, caps: nat): Option<CapsErr> {
    if caps == 0 then Some(ZeroCaps(provider))
    else
      match HardCeiling(provider)
      case Some(ceiling) => if caps > ceiling then Some(AboveHardCeiling(provider, caps, ceiling)) else None
      case None => None
  }

  function CheckProviders(reg: Registry, ids: seq<string>): (r: Option<CapsErr>)
    requires forall id :: id in ids ==> id in reg.providers
    ensures r.None? <==> forall id :: id in ids ==> CheckProviderCaps(id, reg.providers[id].caps).None?
  {
    if ids == [] then None
    else
      match CheckProviderCaps(ids[0], reg.providers[ids[0]].caps)
      case Some(e) => Some(e)
      case None => CheckProviders(reg, ids[1..])
  }

  function CheckSeat(reg: Registry, id: string): Option<CapsErr>
    requires id in reg.seats
  {
    var s := reg.seats[id];
    if s.provider !in reg.providers then Some(SeatMissingProvider(id, s.provider))
    else if s.caps > reg.providers[s.provider].caps then
      Some(SeatAboveProvider(id, s.caps, s.provider, reg.providers[s.provider].caps))
    else None
  }

  function CheckSeats(reg: Registry, ids: seq<string>): (r: Option<CapsErr>)
    requires forall id :: id in ids ==> id in reg.seats
    ensures r.None? <==> forall id :: id in ids ==> CheckSeat(reg, id).None?
  {
    if ids == [] then None
    else
      match CheckSeat(reg, ids[0])
      case Some(e) => Some(e)
      case None => CheckSeats(reg, ids[1..])
  }

  /** `validate_registry`: the first refusal, providers before seats, each in key order. */
  ghost function ValidateRegistry(reg: Registry): Option<CapsErr> {
    match CheckProviders(reg, Ordered(reg.providers.Keys))
    case Some(e) => Some(e)
    case None => CheckSeats(reg, Ordered(reg.seats.Keys))
  }

  /** The walk finds a refusal exactly when some row breaks the law. */
  lemma {:induction false} RegistryLaw(reg: Registry)
    ensures ValidateRegistry(reg).None? <==>
      && (forall id :: id in reg.providers ==> CheckProviderCaps(id, reg.providers[id].caps).None?)
      && (forall id :: id in reg.seats ==>
            && reg.seats[id].provider in reg.providers
            && reg.seats[id].caps <= reg.providers[reg.seats[id].provider].caps)
  {
    hide Ascending, CheckProviderCaps, CheckProviders, CheckSeats;
    assert forall id :: id in reg.seats ==> (CheckSeat(reg, id).None? <==>
      && reg.seats[id].provider in reg.providers
      && reg.seats[id].caps <= reg.providers[reg.seats[id].provider].caps);
    hide CheckSeat;
    var providers, seats := CheckProviders(reg, Ordered(reg.providers.Keys)), CheckSeats(reg, Ordered(reg.seats.Keys));
  }

  // ---------- admission ----------

  function EffectiveCaps(seat: SeatCard, provider: ProviderCard): nat {
    if seat.caps <= provider.caps then seat.caps else provider.caps
  }

  /** Why the planner refuses a request outright, if it does. */
  function Refusal(reg: Registry, id: string): Option<CapsErr> {
    if id !in reg.seats then Some(UnknownSeat(id))
    else if reg.seats[id].provider !in reg.providers then Some(SeatMissingProvider(id, reg.seats[id].provider))
    else None
  }

  predicate Known(reg: Registry, id: string) {
    Refusal(reg, id).None?
  }

  /** What the planner admits a request against: the effective cap, at least 1. */
  function Cap(reg: Registry, id: string): nat
    requires Known(reg, id)
  {
    var c := EffectiveCaps(reg.seats[id], reg.providers[reg.seats[id].provider]);
    if c == 0 then 1 else c
  }

  predicate Uses(reg: Registry, id: string, provider: string) {
    id in reg.seats && reg.seats[id].provider == provider
  }

  /** How many requests of a wave use a provider. */
  function Usage(reg: Registry, wave: seq<string>, provider: string): (n: nat)
    decreases |wave|
  {
    if wave == [] then 0
    else Usage(reg, wave[..|wave| - 1], provider) + if Uses(reg, wave[|wave| - 1], provider) then 1 else 0
  }

  lemma {:induction false} UsageAppend(reg: Registry, a: seq<string>, b: seq<string>, provider: string)
    ensures Usage(reg, a + b, provider) == Usage(reg, a, provider) + Usage(reg, b, provider)
    decreases |b|
  {
    if b == [] {
      assert a + b == a;
    } else {
      assert (a + b)[..|a + b| - 1] == a + b[..|b| - 1];
      UsageAppend(reg, a, b[..|b| - 1], provider);
    }
  }

  lemma UsageSnoc(reg: Registry, wave: seq<string>, id: string)
    ensures forall p :: Usage(reg, wave + [id], p) == Usage(reg, wave, p) + if Uses(reg, id, p) then 1 else 0
  {
    assert (wave + [id])[..|wave|] == wave;
  }

  lemma UsageOne(reg: Registry, id: string)
    ensures forall p :: Usage(reg, [id], p) == if Uses(reg, id, p) then 1 else 0
  {
    assert [id][..0] == [];
  }

  /** The wave has headroom for one more request of this seat. */
  predicate Fits(reg: Registry, wave: seq<string>, id: string) {
    Known(reg, id) && Usage(reg, wave, reg.seats[id].provider) < Cap(reg, id)
  }

  /** Every request of the wave had headroom when it joined. */
  predicate Admissible(reg: Registry, wave: seq<string>) {
    forall j :: 0 <= j < |wave| ==> Fits(reg, wave[..j], wave[j])
  }

  // ---------- the plan ----------

  function Place(reg: Registry, waves: seq<seq<string>>, id: string): seq<seq<string>> {
    if waves != [] && Fits(reg, waves[|waves| - 1], id) then
      waves[|waves| - 1 := waves[|waves| - 1] + [id]]
    else waves + [[id]]
  }

  /** One more request on a plan so far. */
  function Extend(reg: Registry, plan: Result<seq<seq<string>>, CapsErr>, id: string)
    : Result<seq<seq<string>>, CapsErr>
  {
    match plan
    case Err(e) => Err(e)
    case Ok(waves) =>
      match Refusal(reg, id)
      case Some(e) => Err(e)
      case None => Ok(Place(reg, waves, id))
  }

  function Plan(reg: Registry, wanted: seq<string>): Result<seq<seq<string>>, CapsErr>
    decreases |wanted|
  {
    if wanted == [] then Ok([]) else Extend(reg, Plan(reg, wanted[..|wanted| - 1]), wanted[|wanted| - 1])
  }

  /** The map counts the open wave's requests by provider. */
  ghost predicate Tallies(reg: Registry, usage: map<string, nat>, wave: seq<string>) {
    forall p :: Tally(usage, p) == Usage(reg, wave, p)
  }

  function Tally(usage: map<string, nat>, p: string): nat {
    if p in usage then usage[p] else 0
  }

  lemma TallyJoin(reg: Registry, usage: map<string, nat>, wave: seq<string>, id: string)
    requires Tallies(reg, usage, wave) && id in reg.seats
    ensures var p := reg.seats[id].provider; Tallies(reg, usage[p := Tally(usage, p) + 1], wave + [id])
  {
    UsageSnoc(reg, wave, id);
  }

  lemma TallyOpen(reg: Registry, id: string)
    requires id in reg.seats
    ensures Tallies(reg, map[reg.seats[id].provider := 1], [id])
  {
    UsageOne(reg, id);
  }

  lemma TallyFits(reg: Registry, usage: map<string, nat>, wave: seq<string>, id: string)
    requires Tallies(reg, usage, wave) && Known(reg, id)
    ensures Fits(reg, wave, id) <==> Tally(usage, reg.seats[id].provider) < Cap(reg, id)
  {
    hide Usage, Cap;
  }

  lemma PlanStep(reg: Registry, wanted: seq<string>, i: nat)
    requires i < |wanted|
    ensures Plan(reg, wanted[..i + 1]) == Extend(reg, Plan(reg, wanted[..i]), wanted[i])
  {
    assert wanted[..i + 1][..i] == wanted[..i];
  }

  /** `plan_batches`: the loop over the requests with the open wave's usage in a map. */
  method PlanBatches(reg: Registry, wanted: seq<string>) returns (r: Result<seq<seq<string>>, CapsErr>)
    ensures r == Plan(reg, wanted)
  {
    var waves: seq<seq<string>> := [];
    var usage: map<string, nat> := map[];
    assert Plan(reg, wanted[..0]) == Ok(waves);
    hide Plan, Tallies, Usage, Fits, Tally;
    for i := 0 to |wanted|
      invariant Plan(reg, wanted[..i]) == Ok(waves)
      invariant waves != [] ==> Tallies(reg, usage, waves[|waves| - 1])
      invariant waves == [] ==> usage == map[]
    {
      PlanStep(reg, wanted, i);
      var id := wanted[i];
      if id !in reg.seats {
        PlanFails(reg, wanted, i);
        return Err(UnknownSeat(id));
      }
      var seat := reg.seats[id];
      if seat.provider !in reg.providers {
        PlanFails(reg, wanted, i);
        return Err(SeatMissingProvider(id, seat.provider));
      }
      var cap := EffectiveCaps(seat, reg.providers[seat.provider]);
      if cap < 1 {
        cap := 1;
      }
      var used := Tally(usage, seat.provider);
      if waves == [] {
        NothingTallied(seat.provider);
        TallyOpen(reg, id);
        usage := usage[seat.provider := used + 1];
        waves := [[id]];
        assert [] + [[id]] == [[id]];
      } else {
        var open := waves[|waves| - 1];
        TallyFits(reg, usage, open, id);
        if used < cap {
          TallyJoin(reg, usage, open, id);
          usage := usage[seat.provider := used + 1];
          waves := waves[|waves| - 1 := open + [id]];
        } else {
          TallyOpen(reg, id);
          usage := map[seat.provider := 1];
          waves := waves + [[id]];
        }
      }
    }
    assert wanted[..|wanted|] == wanted;
    r := Ok(waves);
  }

  lemma NothingTallied(p: string)
    ensures Tally(map[], p) == 0
  {
  }

  /** A refusal stays the answer whatever follows. */
  lemma {:induction false} PlanFails(reg: Registry, wanted: seq<string>, i: nat)
    requires i < |wanted| && Plan(reg, wanted[..i + 1]).Err?
    ensures Plan(reg, wanted) == Plan(reg, wanted[..i + 1])
    decreases |wanted|
  {
    if i + 1 < |wanted| {
      var front := wanted[..|wanted| - 1];
      assert front[..i + 1] == wanted[..i + 1];
      PlanFails(reg, front, i);
    } else {
      assert wanted[..i + 1] == wanted;
    }
  }

  // ---------- what the plan guarantees ----------

  function Flatten(waves: seq<seq<string>>): seq<string>
    decreases |waves|
  {
    if waves == [] then [] else waves[0] + Flatten(waves[1..])
  }

  lemma {:induction false} FlattenSnoc(waves: seq<seq<string>>, w: seq<string>)
    ensures Flatten(waves + [w]) == Flatten(waves) + w
    decreases |waves|
  {
    if waves == [] {
      assert waves + [w] == [w] && [w][1..] == [];
    } else {
      assert (waves + [w])[1..] == waves[1..] + [w];
      FlattenSnoc(waves[1..], w);
    }
  }

  /** Waves are non-empty and admissible, and each but the first opens with a request its predecessor refused. */
  ghost predicate Greedy(reg: Registry, waves: seq<seq<string>>) {
    && (forall i :: 0 <= i < |waves| ==> waves[i] != [] && Admissible(reg, waves[i]))
    && (forall i, j :: 0 <= i && j == i + 1 && j < |waves| ==> Refused(reg, waves[i], waves[j]))
  }

  ghost predicate Refused(reg: Registry, wave: seq<string>, next: seq<string>)
  {
    next != [] && Known(reg, next[0]) && !Fits(reg, wave, next[0])
  }

  lemma PlaceGreedy(reg: Registry, waves: seq<seq<string>>, id: string)
    requires Greedy(reg, waves) && Known(reg, id)
    ensures Greedy(reg, Place(reg, waves, id))
    ensures Flatten(Place(reg, waves, id)) == Flatten(waves) + [id]
  {
    hide Usage, Flatten, Known;
    FlattenSnoc(waves, [id]);
    NewWave(reg, id);
    if waves != [] {
      var front, open := waves[..|waves| - 1], waves[|waves| - 1];
      assert waves == front + [open];
      FlattenSnoc(front, open);
      FlattenSnoc(front, open + [id]);
      if Fits(reg, open, id) {
        var grown := open + [id];
        assert Place(reg, waves, id) == front + [grown];
        assert Flatten(front) + (open + [id]) == Flatten(front) + open + [id];
        GrownAdmissible(reg, open, id);
        assert grown[0] == open[0];
      }
    }
  }

  lemma GrownAdmissible(reg: Registry, open: seq<string>, id: string)
    requires Admissible(reg, open) && Fits(reg, open, id)
    ensures Admissible(reg, open + [id])
  {
    hide Fits;
    var grown := open + [id];
    forall j | 0 <= j < |grown| ensures Fits(reg, grown[..j], grown[j]) {
      assert grown[..j] == open[..j];
      assert j == |open| ==> open[..j] == open;
    }
  }

  lemma NewWave(reg: Registry, id: string)
    requires Known(reg, id)
    ensures Admissible(reg, [id])
  {
    assert [id][..0] == [];
  }

  /** The plan spells the wanted list in order, wave after wave. */
  lemma {:induction false} PlanSpells(reg: Registry, wanted: seq<string>)
    requires Plan(reg, wanted).Ok?
    ensures Flatten(Plan(reg, wanted).value) == wanted
    ensures Greedy(reg, Plan(reg, wanted).value)
    decreases |wanted|
  {
    hide Place, Greedy, Known;
    if wanted == [] {
      NoWaves(reg);
    } else {
      var front, id := wanted[..|wanted| - 1], wanted[|wanted| - 1];
      PlanSpells(reg, front);
      KnownUnlessRefused(reg, id);
      PlaceGreedy(reg, Plan(reg, front).value, id);
      assert front + [id] == wanted;
    }
  }

  lemma NoWaves(reg: Registry)
    ensures Greedy(reg, []) && Flatten([]) == []
  {
  }

  lemma KnownUnlessRefused(reg: Registry, id: string)
    ensures Known(reg, id) <==> Refusal(reg, id).None?
  {
  }

  /** The first request that is refused, and why. */
  predicate FirstRefused(reg: Registry, wanted: seq<string>, i: nat, e: CapsErr) {
    i < |wanted| && Refusal(reg, wanted[i]) == Some(e) && forall j :: 0 <= j < i ==> Known(reg, wanted[j])
  }

  /** The whole plan is refused exactly when some request is, with the first one's reason. */
  lemma {:induction false} PlanRefuses(reg: Registry, wanted: seq<string>)
    ensures Plan(reg, wanted).Ok? <==> forall id :: id in wanted ==> Known(reg, id)
    ensures Plan(reg, wanted).Err? ==> exists i: nat :: FirstRefused(reg, wanted, i, Plan(reg, wanted).error)
    decreases |wanted|
  {
    if wanted != [] {
      var front, id := wanted[..|wanted| - 1], wanted[|wanted| - 1];
      PlanRefuses(reg, front);
      assert front + [id] == wanted;
      if Plan(reg, front).Err? {
        var i: nat :| FirstRefused(reg, front, i, Plan(reg, front).error);
        assert forall j :: 0 <= j < |front| ==> wanted[j] == front[j];
        assert FirstRefused(reg, wanted, i, Plan(reg, wanted).error);
        assert wanted[i] in wanted && !Known(reg, wanted[i]);
      } else {
        assert forall j :: 0 <= j < |front| ==> wanted[j] == front[j] && front[j] in front;
        assert wanted[|front|] == id && id in wanted;
        if Plan(reg, wanted).Err? {
          assert FirstRefused(reg, wanted, |front|, Plan(reg, wanted).error);
        }
      }
    }
  }

  function Occurrences(wave: seq<string>, id: string): nat
    decreases |wave|
  {
    if wave == [] then 0 else Occurrences(wave[..|wave| - 1], id) + if wave[|wave| - 1] == id then 1 else 0
  }

  /** In an admissible wave no provider runs above its cap and no seat is repeated beyond its own effective cap. */
  lemma {:induction false} AdmissibleWithinCaps(reg: Registry, wave: seq<string>, id: string)
    requires Admissible(reg, wave) && Known(reg, id)
    ensures var p := reg.seats[id].provider;
      && (Usage(reg, wave, p) <= reg.providers[p].caps || Usage(reg, wave, p) <= 1)
      && Occurrences(wave, id) <= Usage(reg, wave, p)
      && Occurrences(wave, id) <= Cap(reg, id)
    decreases |wave|
  {
    if wave != [] {
      var front, last := wave[..|wave| - 1], wave[|wave| - 1];
      forall j | 0 <= j < |front| ensures Fits(reg, front[..j], front[j]) {
        assert front[..j] == wave[..j];
      }
      AdmissibleWithinCaps(reg, front, id);
      assert Fits(reg, wave[..|front|], last);
      assert wave[..|front|] == front;
    }
  }

  /** Once the registry passes the cap law, no wave of a plan exceeds a provider's cap or hard ceiling. */
  lemma {:induction false} PlanWithinCaps(reg: Registry, wanted: seq<string>, i: nat, id: string)
    requires Plan(reg, wanted).Ok? && i < |Plan(reg, wanted).value| && Known(reg, id)
    ensures var wave, p := Plan(reg, wanted).value[i], reg.seats[id].provider;
      && Occurrences(wave, id) <= Cap(reg, id)
      && Usage(reg, wave, p) <= (if reg.providers[p].caps == 0 then 1 else reg.providers[p].caps)
      && (ValidateRegistry(reg).None? ==>
            && Usage(reg, wave, p) <= reg.providers[p].caps
            && (HardCeiling(p).Some? ==> Usage(reg, wave, p) <= HardCeiling(p).value))
  {
    hide Usage, Occurrences, Admissible, Plan, ValidateRegistry;
    RegistryLaw(reg);
    PlanSpells(reg, wanted);
    AdmissibleWithinCaps(reg, Plan(reg, wanted).value[i], id);
  }

  /** A longer open wave never has more headroom. */
  lemma FitsSuffix(reg: Registry, x: seq<string>, wave: seq<string>, id: string)
    requires Fits(reg, x + wave, id)
    ensures Fits(reg, wave, id)
  {
    UsageAppend(reg, x, wave, reg.seats[id].provider);
  }

  lemma {:induction false} GreedyStaysAhead(reg: Registry, g: seq<seq<string>>, o: seq<seq<string>>, x: seq<string>)
    requires Greedy(reg, g) && Flatten(o) == x + Flatten(g)
    requires forall i :: 0 <= i < |o| ==> Admissible(reg, o[i])
    ensures |g| <= |o|
    decreases |g|
  {
    hide Fits, Usage, Known;
    if g != [] {
      assert Flatten(o) != [] by {
        assert Flatten(g)[0] == g[0][0];
      }
      var w, ahead := o[0], x + g[0];
      assert Flatten(o) == ahead + Flatten(g[1..]);
      if |w| > |ahead| {
        var rest := Flatten(g[1..]);
        assert Flatten(o)[|ahead|] == rest[0] == w[|ahead|];
        assert g[1..] != [] && Refused(reg, g[0], g[1]);
        assert rest[0] == g[1][0];
        assert w[..|ahead|] == Flatten(o)[..|ahead|] == ahead;
        assert Fits(reg, w[..|ahead|], w[|ahead|]);
        FitsSuffix(reg, x, g[0], g[1][0]);
      } else {
        assert Flatten(o[1..]) == Flatten(o)[|w|..] == ahead[|w|..] + Flatten(g[1..]);
        GreedyTail(reg, g);
        GreedyStaysAhead(reg, g[1..], o[1..], ahead[|w|..]);
      }
    }
  }

  lemma GreedyTail(reg: Registry, g: seq<seq<string>>)
    requires Greedy(reg, g) && g != []
    ensures Greedy(reg, g[1..])
  {
    hide Admissible, Refused;
    forall i, j | 0 <= i && j == i + 1 && j < |g[1..]| ensures Refused(reg, g[1..][i], g[1..][j]) {
      assert g[1..][i] == g[i + 1] && g[1..][j] == g[j + 1];
      assert Refused(reg, g[i + 1], g[j + 1]);
    }
  }

  /** No other cut of the list into consecutive admissible waves uses fewer of them. */
  lemma {:induction false} PlanFewest(reg: Registry, wanted: seq<string>, other: seq<seq<string>>)
    requires Plan(reg, wanted).Ok? && Flatten(other) == wanted
    requires forall i :: 0 <= i < |other| ==> Admissible(reg, other[i])
    ensures |Plan(reg, wanted).value| <= |other|
  {
    hide Plan, Greedy, Admissible, Flatten;
    PlanSpells(reg, wanted);
    assert [] + wanted == wanted;
    GreedyStaysAhead(reg, Plan(reg, wanted).value, other, []);
  }

  lemma {:induction false} UsageWithin(reg: Registry, wave: seq<string>, provider: string)
    ensures Usage(reg, wave, provider) <= |wave|
    decreases |wave|
  {
    if wave != [] {
      UsageWithin(reg, wave[..|wave| - 1], provider);
    }
  }

  /** Requests that all fit together are one wave. */
  lemma OneWave(reg: Registry, wanted: seq<string>)
    requires wanted != [] && Admissible(reg, wanted)
    ensures Plan(reg, wanted) == Ok([wanted])
  {
    hide Plan, Usage, Admissible;
    forall id | id in wanted ensures Known(reg, id) {
      AdmissibleKnown(reg, wanted, id);
    }
    PlanRefuses(reg, wanted);
    PlanSpells(reg, wanted);
    var waves := Plan(reg, wanted).value;
    assert [wanted][1..] == [] && wanted + [] == wanted;
    PlanFewest(reg, wanted, [wanted]);
    if |waves| == 1 {
      assert waves[1..] == [] && waves == [waves[0]] && waves[0] + [] == waves[0];
    }
  }

  lemma AdmissibleKnown(reg: Registry, wave: seq<string>, id: string)
    requires Admissible(reg, wave) && id in wave
    ensures Known(reg, id)
  {
    var j :| 0 <= j < |wave| && wave[j] == id;
    assert Fits(reg, wave[..j], wave[j]);
  }

  /** So are requests no more numerous than the smallest of their caps. */
  lemma RoomForAll(reg: Registry, wanted: seq<string>)
    requires wanted != [] && forall id :: id in wanted ==> Known(reg, id) && |wanted| <= Cap(reg, id)
    ensures Plan(reg, wanted) == Ok([wanted])
  {
    hide Plan, Usage, Cap;
    forall j | 0 <= j < |wanted| ensures Fits(reg, wanted[..j], wanted[j]) {
      assert wanted[j] in wanted;
      UsageWithin(reg, wanted[..j], reg.seats[wanted[j]].provider);
    }
    OneWave(reg, wanted);
  }

  // ---------- when no provider runs above the effective cap of a seat in the wave ----------

  /** Seats of one provider are admitted against one cap. */
  ghost predicate Uniform(reg: Registry) {
    forall a, b ::
      Known(reg, a) && Known(reg, b) && reg.seats[a].provider == reg.seats[b].provider ==> Cap(reg, a) == Cap(reg, b)
  }

  /** The documented bound: no seat of the wave sees its provider used beyond the seat's effective cap. */
  ghost predicate Bounded(reg: Registry, wave: seq<string>) {
    forall id :: id in wave && Known(reg, id) ==> Usage(reg, wave, reg.seats[id].provider) <= Cap(reg, id)
  }

  lemma {:induction false} UniformWave(reg: Registry, wave: seq<string>, id: string)
    requires Uniform(reg) && Admissible(reg, wave) && Known(reg, id)
    ensures Usage(reg, wave, reg.seats[id].provider) <= Cap(reg, id)
    decreases |wave|
  {
    hide Cap;
    if wave == [] {
      AtLeastOne(reg, id);
    } else {
      var front, last := wave[..|wave| - 1], wave[|wave| - 1];
      forall j | 0 <= j < |front| ensures Fits(reg, front[..j], front[j]) {
        assert front[..j] == wave[..j];
      }
      UniformWave(reg, front, id);
      assert Fits(reg, wave[..|front|], last);
    }
  }

  lemma AtLeastOne(reg: Registry, id: string)
    requires Known(reg, id)
    ensures Cap(reg, id) >= 1
  {
  }

  /** One request of `a` and then `k` of `b`. */
  function Behind(a: string, b: string, k: nat): (wave: seq<string>)
    ensures a in wave
  {
    if k == 0 then [a] else Behind(a, b, k - 1) + [b]
  }

  lemma {:induction false} BehindPlans(reg: Registry, a: string, b: string, k: nat)
    requires Known(reg, a) && Known(reg, b) && reg.seats[a].provider == reg.seats[b].provider
    requires k < Cap(reg, b)
    ensures Plan(reg, Behind(a, b, k)) == Ok([Behind(a, b, k)])
    ensures Usage(reg, Behind(a, b, k), reg.seats[a].provider) == k + 1
  {
    hide Cap, Usage, Plan;
    if k == 0 {
      UsageOne(reg, a);
      PlanOne(reg, a);
    } else {
      var before := Behind(a, b, k - 1);
      BehindPlans(reg, a, b, k - 1);
      UsageSnoc(reg, before, b);
      PlanJoins(reg, before, b);
    }
  }

  lemma PlanOne(reg: Registry, a: string)
    requires Known(reg, a)
    ensures Plan(reg, [a]) == Ok([[a]])
  {
    hide Usage, Cap;
    assert [a][..0] == [] && [] + [[a]] == [[a]];
    assert Plan(reg, [a][..0]) == Ok([]);
  }

  /** A request that fits joins the one wave of a plan. */
  lemma PlanJoins(reg: Registry, before: seq<string>, b: string)
    requires Plan(reg, before) == Ok([before]) && Fits(reg, before, b)
    ensures Plan(reg, before + [b]) == Ok([before + [b]])
  {
    hide Usage, Cap;
    var wave := before + [b];
    assert wave[..|wave| - 1] == before;
    assert [before][0 := wave] == [wave];
  }

  /**
   The planner compares a provider's usage with the cap of the seat that joins, not with those of the
   seats already in the wave. So every plan keeps the documented bound if and only if seats of one
   provider share one effective cap.
   */
  lemma {:induction false} UniformLaw(reg: Registry)
    ensures Uniform(reg) <==>
      forall wanted: seq<string>, i: nat ::
        Plan(reg, wanted).Ok? && i < |Plan(reg, wanted).value| ==> Bounded(reg, Plan(reg, wanted).value[i])
  {
    hide Plan, Usage, Cap, Admissible, Behind;
    if Uniform(reg) {
      forall wanted: seq<string>, i: nat | Plan(reg, wanted).Ok? && i < |Plan(reg, wanted).value|
        ensures Bounded(reg, Plan(reg, wanted).value[i])
      {
        PlanSpells(reg, wanted);
        var wave := Plan(reg, wanted).value[i];
        forall id | id in wave && Known(reg, id) ensures Usage(reg, wave, reg.seats[id].provider) <= Cap(reg, id) {
          UniformWave(reg, wave, id);
        }
      }
    } else {
      var a, b :| Known(reg, a) && Known(reg, b) && reg.seats[a].provider == reg.seats[b].provider
        && Cap(reg, a) < Cap(reg, b);
      var k := Cap(reg, b) - 1;
      BehindPlans(reg, a, b, k);
      assert Plan(reg, Behind(a, b, k)).value[0] == Behind(a, b, k);
      assert !Bounded(reg, Plan(reg, Behind(a, b, k)).value[0]);
    }
  }

  // ---------- one such registry ----------

  function Mixed(): Registry {
    var seat := SeatCard("a", "p", "f", "m", Http, Free, Live, 0, 1, Int(0), Int(0), 0, 0, "s");
    Registry(map["p" := ProviderCard("p", Http, "", "", "", 2, "s")],
        map["a" := seat, "b" := seat.(id := "b", caps := 2)])
  }

  /** A registry that passes the cap law, and two calls that share a wave although one seat is capped at 1. */
  lemma {:induction false} SmallCapFirst()
    ensures Plan(Mixed(), ["a", "b"]) == Ok([["a", "b"]])
    ensures Usage(Mixed(), ["a", "b"], "p") == 2 && Known(Mixed(), "a") && Cap(Mixed(), "a") == 1
    ensures ValidateRegistry(Mixed()).None?
  {
    var reg := Mixed();
    RegistryLaw(reg);
    hide ValidateRegistry, Ruled;
    UsageOne(reg, "a");
    UsageSnoc(reg, ["a"], "b");
    assert ["a"] + ["b"] == ["a", "b"];
    hide Usage;
    PlanStep(reg, ["a", "b"], 0);
    PlanStep(reg, ["a", "b"], 1);
    assert ["a", "b"][..0] == [] && ["a", "b"][..1] == ["a"] && ["a", "b"][..2] == ["a", "b"];
    assert [] + [["a"]] == [["a"]];
    assert Plan(reg, ["a"]) == Ok([["a"]]);
    assert Usage(reg, ["a"], "p") == 1 && Cap(reg, "b") == 2 && Fits(reg, ["a"], "b");
    assert [["a"]][0 := ["a"] + ["b"]] == [["a", "b"]];
    assert Place(reg, [["a"]], "b") == [["a", "b"]];
  }
}
