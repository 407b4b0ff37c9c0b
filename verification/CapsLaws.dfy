/**
 What the cap law and the dispatch planner promise, said of caps, providers and places alone:
 crates/caddis-deliberate/src/caps.rs.
 */
module CapsLaws {
  import opened Wrappers
  import opened BTree
  import opened Text
  import opened Lexical
  import opened Cards
  import opened Caps

  // ---------- the cap law ----------

  /** At least one call at a time, and at most two for the two providers the law names. */
  ghost predicate LawfulProvider(id: string, p: ProviderCard) {
    p.caps >= 1 && (id == "ollama" || id == "ollama-cloud" ==> p.caps <= 2)
  }

  /** On a provider of the registry, and not above its caps. */
  ghost predicate LawfulSeat(reg: Registry, s: SeatCard) {
    s.provider in reg.providers && s.caps <= reg.providers[s.provider].caps
  }

  ghost predicate ProvidersLawfulBefore(reg: Registry, id: string) {
    forall k :: k in reg.providers && Precedes(k, id) ==> LawfulProvider(k, reg.providers[k])
  }

  ghost predicate SeatsLawfulBefore(reg: Registry, id: string) {
    && (forall k :: k in reg.providers ==> LawfulProvider(k, reg.providers[k]))
    && forall k :: k in reg.seats && Precedes(k, id) ==> LawfulSeat(reg, reg.seats[k])
  }

  ghost predicate RegistryAnswer(r: Option<CapsErr>, reg: Registry) {
    match r
    case None =>
      && (forall k :: k in reg.providers ==> LawfulProvider(k, reg.providers[k]))
      && forall k :: k in reg.seats ==> LawfulSeat(reg, reg.seats[k])
    case Some(ZeroCaps(id)) => id in reg.providers && reg.providers[id].caps == 0 && ProvidersLawfulBefore(reg, id)
    case Some(AboveHardCeiling(id, caps, ceiling)) =>
      && id in reg.providers && (id == "ollama" || id == "ollama-cloud")
      && reg.providers[id].caps == caps > ceiling == 2 && ProvidersLawfulBefore(reg, id)
    case Some(SeatMissingProvider(id, provider)) =>
      && id in reg.seats && reg.seats[id].provider == provider && provider !in reg.providers
      && SeatsLawfulBefore(reg, id)
    case Some(SeatAboveProvider(id, caps, provider, ceiling)) =>
      && id in reg.seats && reg.seats[id].provider == provider && provider in reg.providers
      && reg.seats[id].caps == caps > ceiling == reg.providers[provider].caps && SeatsLawfulBefore(reg, id)
    case Some(UnknownSeat(_)) => false
  }

  lemma {:induction false} FirstProvider(reg: Registry, ids: seq<string>) returns (i: nat)
    requires forall id :: id in ids ==> id in reg.providers
    requires CheckProviders(reg, ids).Some?
    ensures i < |ids| && CheckProviderCaps(ids[i], reg.providers[ids[i]].caps) == CheckProviders(reg, ids)
    ensures forall j :: 0 <= j < i ==> CheckProviderCaps(ids[j], reg.providers[ids[j]].caps).None?
  {
    hide CheckProviderCaps;
    if CheckProviderCaps(ids[0], reg.providers[ids[0]].caps).Some? {
      i := 0;
    } else {
      var k := FirstProvider(reg, ids[1..]);
      i := k + 1;
      assert forall j :: 0 < j < i ==> ids[j] == ids[1..][j - 1];
    }
  }

  lemma {:induction false} FirstSeat(reg: Registry, ids: seq<string>) returns (i: nat)
    requires forall id :: id in ids ==> id in reg.seats
    requires CheckSeats(reg, ids).Some?
    ensures i < |ids| && CheckSeat(reg, ids[i]) == CheckSeats(reg, ids)
    ensures forall j :: 0 <= j < i ==> CheckSeat(reg, ids[j]).None?
  {
    hide CheckSeat;
    if CheckSeat(reg, ids[0]).Some? {
      i := 0;
    } else {
      var k := FirstSeat(reg, ids[1..]);
      i := k + 1;
      assert forall j :: 0 < j < i ==> ids[j] == ids[1..][j - 1];
    }
  }

  /** What precedes a key comes earlier in the walk. */
  lemma EarlierKey(keys: seq<string>, i: nat, k: string)
    requires Ascending(keys) && i < |keys| && k in keys && Precedes(k, keys[i])
    ensures exists j :: 0 <= j < i && keys[j] == k
  {
    var j :| 0 <= j < |keys| && keys[j] == k;
    OrderIsLexical(k, keys[i]);
    StrLeTotal(k, keys[i]);
    NotItself(k);
    hide Precedes, StrLe;
  }

  lemma LawfulMeans(id: string, p: ProviderCard)
    ensures CheckProviderCaps(id, p.caps).None? <==> LawfulProvider(id, p)
  {
  }

  lemma LawfulSeatMeans(reg: Registry, id: string)
    requires id in reg.seats
    ensures CheckSeat(reg, id).None? <==> LawfulSeat(reg, reg.seats[id])
  {
  }

  lemma ProviderAnswers(reg: Registry, ids: seq<string>)
    requires Ascending(ids) && forall id :: id in ids <==> id in reg.providers
    ensures CheckProviders(reg, ids).Some? ==> RegistryAnswer(CheckProviders(reg, ids), reg)
    ensures CheckProviders(reg, ids).None? <==>
      forall k :: k in reg.providers ==> LawfulProvider(k, reg.providers[k])
  {
    hide Precedes, CheckProviders, Ascending;
    forall k | k in reg.providers
      ensures CheckProviderCaps(k, reg.providers[k].caps).None? <==> LawfulProvider(k, reg.providers[k])
    {
      LawfulMeans(k, reg.providers[k]);
    }
    if CheckProviders(reg, ids).Some? {
      var i := FirstProvider(reg, ids);
      forall k | k in reg.providers && Precedes(k, ids[i]) ensures LawfulProvider(k, reg.providers[k]) {
        EarlierKey(ids, i, k);
      }
      assert ids[i] in ids && ProvidersLawfulBefore(reg, ids[i]);
    }
  }

  lemma SeatAnswers(reg: Registry, ids: seq<string>)
    requires Ascending(ids) && forall id :: id in ids <==> id in reg.seats
    requires forall k :: k in reg.providers ==> LawfulProvider(k, reg.providers[k])
    ensures RegistryAnswer(CheckSeats(reg, ids), reg)
  {
    hide Precedes, CheckSeats, Ascending, LawfulProvider;
    forall k | k in reg.seats ensures CheckSeat(reg, k).None? <==> LawfulSeat(reg, reg.seats[k]) {
      LawfulSeatMeans(reg, k);
    }
    if CheckSeats(reg, ids).Some? {
      var i := FirstSeat(reg, ids);
      forall k | k in reg.seats && Precedes(k, ids[i]) ensures LawfulSeat(reg, reg.seats[k]) {
        EarlierKey(ids, i, k);
      }
      assert ids[i] in ids && SeatsLawfulBefore(reg, ids[i]);
    }
  }

  /** Every answer of the registry check: the first row that breaks the law, providers first, each kind by key. */
  lemma {:induction false} RegistryAnswers(reg: Registry)
    ensures RegistryAnswer(ValidateRegistry(reg), reg)
  {
    hide RegistryAnswer, Ascending, LawfulProvider, CheckProviders, CheckSeats;
    ProviderAnswers(reg, Ordered(reg.providers.Keys));
    if CheckProviders(reg, Ordered(reg.providers.Keys)).None? {
      SeatAnswers(reg, Ordered(reg.seats.Keys));
    }
  }

  // ---------- the plan ----------

  /** How many of the first `k` requests of a wave are on the provider. */
  ghost function Busy(reg: Registry, wave: seq<string>, k: nat, provider: string): nat {
    |PlacesOf(reg, wave, k, provider)|
  }

  ghost function PlacesOf(reg: Registry, wave: seq<string>, k: nat, provider: string): set<nat> {
    set j: nat | j < k && j < |wave| && wave[j] in reg.seats && reg.seats[wave[j]].provider == provider
  }

  /** The smaller of the seat's cap and its provider's, but at least one. */
  ghost function Room(reg: Registry, id: string): nat
    requires id in reg.seats && reg.seats[id].provider in reg.providers
  {
    var s, p := reg.seats[id].caps, reg.providers[reg.seats[id].provider].caps;
    if s == 0 || p == 0 then 1 else if s < p then s else p
  }

  ghost predicate Seated(reg: Registry, id: string) {
    id in reg.seats && reg.seats[id].provider in reg.providers
  }

  /** Fewer of the first `k` requests are on the seat's provider than it has room for. */
  ghost predicate Headroom(reg: Registry, wave: seq<string>, k: nat, id: string)
    requires Seated(reg, id)
  {
    Busy(reg, wave, k, reg.seats[id].provider) < Room(reg, id)
  }

  /**
   Waves that hold at least one request each, all with headroom when they joined, and of which each is
   closed by the first request that finds none.
   */
  ghost predicate Cut(reg: Registry, waves: seq<seq<string>>) {
    && (forall i :: 0 <= i < |waves| ==> waves[i] != [])
    && (forall i, k :: 0 <= i < |waves| && 0 <= k < |waves[i]| ==>
          Seated(reg, waves[i][k]) && Headroom(reg, waves[i], k, waves[i][k]))
    && (forall i :: 0 <= i < |waves| - 1 ==> Closed(reg, waves[i], waves[i + 1]))
  }

  ghost predicate Closed(reg: Registry, wave: seq<string>, next: seq<string>) {
    next != [] && Seated(reg, next[0]) && !Headroom(reg, wave, |wave|, next[0])
  }

  lemma {:induction false} BusyIs(reg: Registry, wave: seq<string>, k: nat, provider: string)
    requires k <= |wave|
    ensures Usage(reg, wave[..k], provider) == Busy(reg, wave, k, provider)
  {
    if k == 0 {
      assert PlacesOf(reg, wave, k, provider) == {};
    } else {
      BusyIs(reg, wave, k - 1, provider);
      assert wave[..k][..k - 1] == wave[..k - 1];
      BusySnoc(reg, wave, k, provider);
      hide Busy;
    }
  }

  lemma BusySnoc(reg: Registry, wave: seq<string>, k: nat, provider: string)
    requires 0 < k <= |wave|
    ensures Busy(reg, wave, k, provider)
      == Busy(reg, wave, k - 1, provider) + if Uses(reg, wave[k - 1], provider) then 1 else 0
  {
    var front := PlacesOf(reg, wave, k - 1, provider);
    assert PlacesOf(reg, wave, k, provider) == if Uses(reg, wave[k - 1], provider) then front + {k - 1} else front;
  }

  lemma FitsMeans(reg: Registry, wave: seq<string>, k: nat, id: string)
    requires k <= |wave|
    ensures Known(reg, id) <==> Seated(reg, id)
    ensures Fits(reg, wave[..k], id) <==> Seated(reg, id) && Headroom(reg, wave, k, id)
  {
    if Known(reg, id) {
      BusyIs(reg, wave, k, reg.seats[id].provider);
    }
    hide Busy, Usage;
  }

  lemma CutMeans(reg: Registry, waves: seq<seq<string>>)
    ensures Greedy(reg, waves) <==> Cut(reg, waves)
  {
    hide Fits, Seated, Headroom, Known;
    forall i, k | 0 <= i < |waves| && 0 <= k < |waves[i]|
      ensures Fits(reg, waves[i][..k], waves[i][k]) <==>
        Seated(reg, waves[i][k]) && Headroom(reg, waves[i], k, waves[i][k])
    {
      FitsMeans(reg, waves[i], k, waves[i][k]);
    }
    forall i, j | 0 <= i && j == i + 1 && j < |waves| && waves[j] != []
      ensures Refused(reg, waves[i], waves[j]) <==> Closed(reg, waves[i], waves[j])
    {
      assert waves[i][..|waves[i]|] == waves[i];
      FitsMeans(reg, waves[i], |waves[i]|, waves[j][0]);
    }
  }

  lemma CutTail(reg: Registry, waves: seq<seq<string>>)
    requires waves != [] && Cut(reg, waves)
    ensures Cut(reg, waves[1..])
  {
    CutMeans(reg, waves);
    CutMeans(reg, waves[1..]);
    hide Cut, Greedy;
    GreedyTail(reg, waves);
  }

  /** What follows the first wave did not fit it. */
  lemma Closer(reg: Registry, waves: seq<seq<string>>)
    requires Cut(reg, waves) && waves != [] && |waves[0]| < |Flatten(waves)|
    ensures !Fits(reg, waves[0], Flatten(waves)[|waves[0]|])
  {
    hide Seated, Headroom, Cut;
    CutMeans(reg, waves);
    var rest := Flatten(waves[1..]);
    assert Flatten(waves) == waves[0] + rest;
    assert rest[0] == waves[1][0] && Refused(reg, waves[0], waves[1]);
  }

  /** What is in the first wave fitted what was in it before. */
  lemma Joiner(reg: Registry, waves: seq<seq<string>>, n: nat)
    requires Cut(reg, waves) && waves != [] && n < |waves[0]|
    ensures n < |Flatten(waves)| && Fits(reg, Flatten(waves)[..n], Flatten(waves)[n])
  {
    hide Seated, Headroom, Cut;
    CutMeans(reg, waves);
    var rest := Flatten(waves[1..]);
    assert Flatten(waves) == waves[0] + rest;
    assert Flatten(waves)[..n] == waves[0][..n];
    assert Fits(reg, waves[0][..n], waves[0][n]);
  }

  lemma NotLonger(reg: Registry, a: seq<seq<string>>, b: seq<seq<string>>)
    requires Cut(reg, a) && Cut(reg, b) && a != [] && b != [] && Flatten(a) == Flatten(b)
    ensures |b[0]| <= |a[0]|
  {
    hide Cut, Fits;
    assert Flatten(a)[..|a[0]|] == a[0];
    if |a[0]| < |b[0]| {
      Joiner(reg, b, |a[0]|);
      Closer(reg, a);
    }
  }

  lemma {:induction false} CutsAgree(reg: Registry, a: seq<seq<string>>, b: seq<seq<string>>)
    requires Cut(reg, a) && Cut(reg, b) && Flatten(a) == Flatten(b)
    ensures a == b
    decreases |a|
  {
    NoneEmpty(reg, a);
    NoneEmpty(reg, b);
    hide Cut;
    if a != [] && b != [] {
      NotLonger(reg, a, b);
      NotLonger(reg, b, a);
      var whole := Flatten(a);
      assert whole == a[0] + Flatten(a[1..]) == b[0] + Flatten(b[1..]);
      assert a[0] == whole[..|a[0]|] == b[0];
      assert Flatten(a[1..]) == whole[|a[0]|..] == Flatten(b[1..]);
      CutTail(reg, a);
      CutTail(reg, b);
      CutsAgree(reg, a[1..], b[1..]);
      assert a == [a[0]] + a[1..] && b == [b[0]] + b[1..];
    }
  }

  lemma NoneEmpty(reg: Registry, waves: seq<seq<string>>)
    requires Cut(reg, waves)
    ensures waves == [] <==> Flatten(waves) == []
  {
    if waves != [] {
      assert waves[0] != [];
    }
  }

  /** The first request that is not on a provider of the registry, and which of its two names is missing. */
  ghost predicate Unseated(reg: Registry, wanted: seq<string>, i: nat, e: CapsErr) {
    && i < |wanted| && !Seated(reg, wanted[i]) && (forall j :: 0 <= j < i ==> Seated(reg, wanted[j]))
    && (wanted[i] !in reg.seats ==> e == UnknownSeat(wanted[i]))
    && (wanted[i] in reg.seats ==> e == SeatMissingProvider(wanted[i], reg.seats[wanted[i]].provider))
  }

  /** Every plan is a cut of the wanted list, or is refused with the first request that has no seat. */
  lemma {:induction false} PlanAnswers(reg: Registry, wanted: seq<string>)
    ensures var r := Plan(reg, wanted);
      && (r.Ok? ==> Cut(reg, r.value) && Flatten(r.value) == wanted)
      && (r.Err? ==> exists i: nat :: Unseated(reg, wanted, i, r.error))
  {
    hide Plan, Cut, Greedy, Flatten;
    PlanRefuses(reg, wanted);
    var r := Plan(reg, wanted);
    if r.Ok? {
      PlanSpells(reg, wanted);
      CutMeans(reg, r.value);
    } else {
      var i: nat :| FirstRefused(reg, wanted, i, r.error);
      assert Unseated(reg, wanted, i, r.error);
    }
  }

  /** And every cut is the plan of the list it spells: there is no other. */
  lemma {:induction false} OnlyPlan(reg: Registry, waves: seq<seq<string>>)
    requires Cut(reg, waves)
    ensures Plan(reg, Flatten(waves)) == Ok(waves)
  {
    hide Plan, Flatten;
    var wanted := Flatten(waves);
    PlanAnswers(reg, wanted);
    AllSeated(reg, waves);
    hide Cut, Seated;
    CutsAgree(reg, Plan(reg, wanted).value, waves);
  }

  lemma {:induction false} AllSeated(reg: Registry, waves: seq<seq<string>>)
    requires Cut(reg, waves)
    ensures forall i :: 0 <= i < |Flatten(waves)| ==> Seated(reg, Flatten(waves)[i])
    decreases |waves|
  {
    hide Headroom, Seated;
    if waves != [] {
      CutTail(reg, waves);
      AllSeated(reg, waves[1..]);
      var w, rest := waves[0], Flatten(waves[1..]);
      assert forall i :: 0 <= i < |w| ==> Flatten(waves)[i] == w[i];
      assert forall i :: 0 <= i < |rest| ==> Flatten(waves)[|w| + i] == rest[i];
      forall i | 0 <= i < |Flatten(waves)| ensures Seated(reg, Flatten(waves)[i]) {
        if i < |w| {
          assert Seated(reg, waves[0][i]);
        } else {
          assert Seated(reg, rest[i - |w|]);
        }
      }
    }
  }

  /** No wave puts more on a provider than its caps, two at most for the two the law names. */
  lemma {:induction false} WavesWithinCaps(reg: Registry, wanted: seq<string>, i: nat, provider: string)
    requires Plan(reg, wanted).Ok? && i < |Plan(reg, wanted).value| && provider in reg.providers
    requires RegistryAnswer(None, reg)
    ensures var wave := Plan(reg, wanted).value[i]; var busy := Busy(reg, wave, |wave|, provider);
      busy <= reg.providers[provider].caps && (provider == "ollama" || provider == "ollama-cloud" ==> busy <= 2)
  {
    hide Plan, Usage, Occurrences;
    var wave := Plan(reg, wanted).value[i];
    assert wave[..|wave|] == wave;
    BusyIs(reg, wave, |wave|, provider);
    PlanSpells(reg, wanted);
    hide Busy;
    if exists id :: Known(reg, id) && reg.seats[id].provider == provider {
      var id :| Known(reg, id) && reg.seats[id].provider == provider;
      AdmissibleWithinCaps(reg, wave, id);
    } else {
      Unused(reg, wave, provider);
    }
  }

  lemma {:induction false} Unused(reg: Registry, wave: seq<string>, provider: string)
    requires forall id :: Known(reg, id) ==> reg.seats[id].provider != provider
    requires provider in reg.providers
    ensures Usage(reg, wave, provider) == 0
    decreases |wave|
  {
    if wave != [] {
      Unused(reg, wave[..|wave| - 1], provider);
      assert Uses(reg, wave[|wave| - 1], provider) ==> Known(reg, wave[|wave| - 1]);
    }
  }
}
