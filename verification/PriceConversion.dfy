/** Per-token dollar prices turned into model and completion ratios, and what the rounding costs. */
module PriceConversion {
  import opened Lists
  import opened Quota

  /** One listed model; None stands for a price that does not parse (or an absent cache price). */
  datatype Listing = Listing(id: string, prompt: Option<real>, completion: Option<real>, cacheRead: Option<real>)

  datatype Ratios = Ratios(model: map<string, real>, completion: map<string, real>, cache: map<string, real>)

  const NoRatios := Ratios(map[], map[], map[])

  /** Quota units per dollar per thousand tokens. */
  const UnitsPerDollar := 500.0
  const QuotaPerUnit := 500000.0

  /** roundRatioValue: six decimals, half away from zero. */
  function RoundRatio(x: real): (r: real) {
    RoundAway(x * 1000000.0) as real / 1000000.0
  }

  function PriceOr0(price: Option<real>): (r: real) {
    if price.Some? then price.value else 0.0
  }

  /** Listings that get ratios: some price parses, none is negative, and the prompt price is positive. */
  predicate Priced(m: Listing) {
    (m.prompt.Some? || m.completion.Some?) && PriceOr0(m.prompt) > 0.0 && PriceOr0(m.completion) >= 0.0
  }

  /** Free models get a zero model ratio and nothing else. */
  predicate Free(m: Listing) {
    (m.prompt.Some? || m.completion.Some?) && PriceOr0(m.prompt) == 0.0 && PriceOr0(m.completion) == 0.0
  }

  function ModelRatio(m: Listing): (r: real) {
    RoundRatio(PriceOr0(m.prompt) * 1000.0 * UnitsPerDollar)
  }

  function CompletionRatio(m: Listing): (r: real)
    requires Priced(m)
  {
    RoundRatio(PriceOr0(m.completion) / PriceOr0(m.prompt))
  }

  /** The ratios after one more listing. */
  function Added(r: Ratios, m: Listing): (next: Ratios) {
    if Free(m) then r.(model := r.model[m.id := 0.0])
    else if !Priced(m) then r
    else
      Ratios(r.model[m.id := ModelRatio(m)],
             r.completion[m.id := CompletionRatio(m)],
             if m.cacheRead.Some? && m.cacheRead.value >= 0.0
             then r.cache[m.id := RoundRatio(m.cacheRead.value / PriceOr0(m.prompt))] else r.cache)
  }

  function Converted(listings: seq<Listing>): (r: Ratios) {
    if listings == [] then NoRatios else Added(Converted(listings[..|listings| - 1]), listings[|listings| - 1])
  }

  /** convertOpenRouterToRatioData after decoding. */
  method ConvertOpenRouter(listings: seq<Listing>) returns (ratios: Ratios)
    ensures ratios == Converted(listings)
  {
    var model: map<string, real> := map[];
    var completion: map<string, real> := map[];
    var cache: map<string, real> := map[];
    for i := 0 to |listings|
      invariant Ratios(model, completion, cache) == Converted(listings[..i])
    {
      var m := listings[i];
      assert listings[..i + 1][..i] == listings[..i];
      if m.prompt.None? && m.completion.None? {
        continue;
      }
      var promptPrice := if m.prompt.None? then 0.0 else m.prompt.value;
      var completionPrice := if m.completion.None? then 0.0 else m.completion.value;
      if promptPrice < 0.0 || completionPrice < 0.0 {
        continue;
      }
      if promptPrice == 0.0 && completionPrice == 0.0 {
        model := model[m.id := 0.0];
        continue;
      }
      if promptPrice <= 0.0 {
        continue;
      }
      model := model[m.id := RoundRatio(promptPrice * 1000.0 * UnitsPerDollar)];
      completion := completion[m.id := RoundRatio(completionPrice / promptPrice)];
      if m.cacheRead.Some? && m.cacheRead.value >= 0.0 {
        cache := cache[m.id := RoundRatio(m.cacheRead.value / promptPrice)];
      }
    }
    assert listings[..|listings|] == listings;
    ratios := Ratios(model, completion, cache);
  }

  predicate Rated(m: Listing) {
    Priced(m) || Free(m)
  }

  predicate Cached(m: Listing) {
    Priced(m) && m.cacheRead.Some? && m.cacheRead.value >= 0.0
  }

  /** No later listing of the same model is of the given kind. */
  ghost predicate LastOf(listings: seq<Listing>, i: nat, kind: Listing -> bool) {
    i < |listings| && kind(listings[i]) && forall j :: i < j < |listings| && listings[j].id == listings[i].id ==> !kind(listings[j])
  }

  /** Each table holds, for every listed model, the ratio of its last listing that has one. */
  lemma {:induction false} ConvertedEntry(listings: seq<Listing>, i: nat)
    requires i < |listings|
    ensures var m, r := listings[i], Converted(listings);
            && (LastOf(listings, i, Rated) ==> m.id in r.model && r.model[m.id] == if Free(m) then 0.0 else ModelRatio(m))
            && (LastOf(listings, i, Priced) ==> m.id in r.completion && r.completion[m.id] == CompletionRatio(m))
            && (LastOf(listings, i, Cached) ==> m.id in r.cache && r.cache[m.id] == RoundRatio(m.cacheRead.value / PriceOr0(m.prompt)))
  {
    var front, last := listings[..|listings| - 1], listings[|listings| - 1];
    if i < |front| {
      ConvertedEntry(front, i);
      assert forall j :: i < j < |front| ==> front[j] == listings[j];
      assert LastOf(listings, i, Rated) ==> LastOf(front, i, Rated) && (last.id == listings[i].id ==> !Rated(last));
      assert LastOf(listings, i, Priced) ==> LastOf(front, i, Priced) && (last.id == listings[i].id ==> !Priced(last));
      assert LastOf(listings, i, Cached) ==> LastOf(front, i, Cached) && (last.id == listings[i].id ==> !Cached(last));
    }
  }

  ghost predicate SomeListing(listings: seq<Listing>, id: string, kind: Listing -> bool) {
    exists i :: 0 <= i < |listings| && listings[i].id == id && kind(listings[i])
  }

  lemma SomeListingSnoc(listings: seq<Listing>, id: string, kind: Listing -> bool)
    requires listings != []
    ensures SomeListing(listings, id, kind) <==>
            SomeListing(listings[..|listings| - 1], id, kind) || (listings[|listings| - 1].id == id && kind(listings[|listings| - 1]))
  {
    var front := listings[..|listings| - 1];
    assert forall i :: 0 <= i < |front| ==> front[i] == listings[i];
  }

  /** ... and nothing for a model without such a listing. */
  lemma {:induction false} ConvertedIds(listings: seq<Listing>, id: string)
    ensures var r := Converted(listings);
            && (id in r.model <==> SomeListing(listings, id, Rated))
            && (id in r.completion <==> SomeListing(listings, id, Priced))
            && (id in r.cache <==> SomeListing(listings, id, Cached))
  {
    if listings != [] {
      ConvertedIds(listings[..|listings| - 1], id);
      SomeListingSnoc(listings, id, Rated);
      SomeListingSnoc(listings, id, Priced);
      SomeListingSnoc(listings, id, Cached);
    }
  }

  // ---- The cost of rounding ----

  /** An error of at most the bound, either way. */
  predicate Within(error: real, bound: real) {
    -bound <= error <= bound
  }

  ghost predicate SixDecimals(x: real) {
    x * 1000000.0 == (x * 1000000.0).Floor as real
  }

  lemma RoundRatioError(x: real)
    ensures Within(RoundRatio(x) - x, 0.0000005)
    ensures x >= 0.0 ==> RoundRatio(x) >= 0.0
  {
    RoundFacts(x * 1000000.0);
  }

  lemma RoundRatioDecimals(x: real)
    ensures SixDecimals(RoundRatio(x))
  {
  }

  lemma ScaledError(a: real, e: real, bound: real)
    requires a >= 0.0 && Within(e, bound)
    ensures Within(a * e, a * bound)
  {
    assert a * e <= a * bound;
    assert a * (-bound) <= a * e;
    assert a * (-bound) == -(a * bound);
  }

  lemma ErrorSum(error: real, x: real, y: real, a: real, b: real)
    requires error == x + y && Within(x, a) && Within(y, b)
    ensures Within(error, a + b)
  {
  }

  lemma ErrorWidens(error: real, a: real, b: real)
    requires Within(error, a) && a <= b
    ensures Within(error, b)
  {
  }

  lemma ProductNonNegative(x: real, y: real)
    requires x >= 0.0 && y >= 0.0
    ensures x * y >= 0.0
  {
  }

  lemma ScaledOrder(x: real, y: real, b: real)
    requires x <= y && b >= 0.0
    ensures x * b <= y * b
  {
  }

  /** Dollars billed for p prompt and c completion tokens through the two ratios. */
  function Billed(p: real, c: real, modelRatio: real, completionRatio: real): (r: real) {
    (p + c * completionRatio) * (modelRatio / QuotaPerUnit)
  }

  /** The algebra of the error: two independent perturbations of an exact bill. */
  lemma PerturbedBill(p: real, c: real, price: real, ratio: real, e: real, d: real, weight: real)
    requires weight == p + c * (ratio + e)
    ensures weight * (price + d) - (price * p + price * ratio * c) == price * c * e + weight * d
  {
    assert weight * (price + d) == weight * price + weight * d;
    assert weight * price == price * p + price * (c * (ratio + e));
    assert c * (ratio + e) == c * ratio + c * e;
    assert price * (c * ratio + c * e) == price * (c * ratio) + price * (c * e);
    assert price * (c * ratio) == price * ratio * c;
    assert price * (c * e) == price * c * e;
  }

  lemma WeightBounds(p: real, c: real, ratio: real, e: real, a: real, rounded: real)
    requires p >= 0.0 && c >= 0.0 && rounded == ratio + e && rounded >= 0.0 && Within(e, a)
    ensures 0.0 <= p + c * rounded <= p + ratio * c + a * c
  {
    ProductNonNegative(c, rounded);
    ScaledError(c, e, a);
    assert c * rounded == c * ratio + c * e;
  }

  /** A bill whose completion ratio is off by at most a and whose token price is off by at most b. */
  lemma PerturbedBillError(p: real, c: real, price: real, completion: real, ratio: real, rounded: real, perToken: real, a: real, b: real)
    requires p >= 0.0 && c >= 0.0 && price >= 0.0 && rounded >= 0.0 && price * ratio == completion
    requires Within(rounded - ratio, a) && Within(perToken - price, b)
    ensures Within((p + c * rounded) * perToken - (price * p + completion * c), price * c * a + (p + ratio * c + a * c) * b)
  {
    var e, d, weight := rounded - ratio, perToken - price, p + c * rounded;
    PerturbedBill(p, c, price, ratio, e, d, weight);
    ProductNonNegative(price, c);
    WeightBounds(p, c, ratio, e, a, rounded);
    SumOfErrors(weight * perToken - (price * p + completion * c), price * c, e, a, weight, d, b, p + ratio * c + a * c);
  }

  lemma SumOfErrors(error: real, x: real, e: real, a: real, w: real, d: real, b: real, top: real)
    requires error == x * e + w * d
    requires x >= 0.0 && 0.0 <= w <= top && Within(e, a) && Within(d, b)
    ensures Within(error, x * a + top * b)
  {
    ScaledError(x, e, a);
    ScaledError(w, d, b);
    ErrorSum(error, x * e, w * d, x * a, w * b);
    ScaledOrder(w, top, b);
    ErrorWidens(error, x * a + w * b, x * a + top * b);
  }

  /** The rounded model ratio prices a token to within a trillionth of a dollar. */
  lemma ModelRatioError(price: real)
    ensures Within(RoundRatio(price * 1000.0 * UnitsPerDollar) / QuotaPerUnit - price, 0.000000000001)
  {
    RoundRatioError(price * 1000.0 * UnitsPerDollar);
  }

  lemma QuotientTimes(completion: real, price: real)
    requires price > 0.0
    ensures price * (completion / price) == completion
    ensures completion >= 0.0 ==> completion / price >= 0.0
  {
  }

  /** The bound on a bill's rounding error, in dollars. */
  function BillError(p: real, c: real, price: real, completion: real): (r: real)
    requires price > 0.0
  {
    price * c * 0.0000005 + (p + completion / price * c + 0.0000005 * c) * 0.000000000001
  }

  /** Rounding both ratios moves a bill by at most that many dollars. */
  lemma ConversionError(p: real, c: real, price: real, completion: real)
    requires p >= 0.0 && c >= 0.0 && price > 0.0 && completion >= 0.0
    ensures Within(Billed(p, c, RoundRatio(price * 1000.0 * UnitsPerDollar), RoundRatio(completion / price))
                   - (price * p + completion * c), BillError(p, c, price, completion))
  {
    ModelRatioError(price);
    QuotientTimes(completion, price);
    RoundRatioError(completion / price);
    PerturbedBillError(p, c, price, completion, completion / price, RoundRatio(completion / price),
                       RoundRatio(price * 1000.0 * UnitsPerDollar) / QuotaPerUnit, 0.0000005, 0.000000000001);
  }

  // ---- The tables that come out ----

  /** A listing that changes nothing: no price parses, one is negative, or only completions cost something. */
  ghost predicate Skipped(m: Listing) {
    || (m.prompt.None? && m.completion.None?)
    || (m.prompt.Some? && m.prompt.value < 0.0)
    || (m.completion.Some? && m.completion.value < 0.0)
    || ((m.prompt.None? || m.prompt.value == 0.0) && m.completion.Some? && m.completion.value > 0.0)
  }

  /** The last listing of its model that is not skipped. */
  ghost predicate Lasting(listings: seq<Listing>, i: nat) {
    i < |listings| && forall j :: i < j < |listings| && listings[j].id == listings[i].id ==> Skipped(listings[j])
  }

  /** The listing asks this much for a prompt and a completion token. */
  ghost predicate Asks(m: Listing, price: real, completion: real) {
    && m.prompt == Some(price) && price > 0.0 && completion >= 0.0
    && (m.completion == Some(completion) || (m.completion.None? && completion == 0.0))
  }

  lemma RatedIff(m: Listing)
    ensures Rated(m) <==> !Skipped(m)
  {
  }

  lemma LastingIsLast(listings: seq<Listing>, i: nat)
    requires Lasting(listings, i) && !Skipped(listings[i])
    ensures LastOf(listings, i, Rated) && (Priced(listings[i]) ==> LastOf(listings, i, Priced)) && (Cached(listings[i]) ==> LastOf(listings, i, Cached))
  {
    RatedIff(listings[i]);
    forall j | i < j < |listings| && listings[j].id == listings[i].id ensures !Rated(listings[j]) {
      RatedIff(listings[j]);
    }
  }

  lemma RatioIs(x: real, ratio: real, exact: real)
    requires ratio == RoundRatio(x) && x == exact
    ensures SixDecimals(ratio) && Within(ratio - exact, 0.0000005)
  {
    RoundRatioDecimals(x);
    RoundRatioError(x);
  }

  /** The ratios stored for a model: six decimals of 500000 units per dollar of a prompt token, and of the prices in terms of it. */
  lemma ConvertedRatios(listings: seq<Listing>, i: nat, id: string, price: real, completion: real, r: Ratios)
    requires Lasting(listings, i) && Asks(listings[i], price, completion) && id == listings[i].id && r == Converted(listings)
    ensures id in r.model && r.model[id] == RoundRatio(price * 1000.0 * UnitsPerDollar)
    ensures SixDecimals(r.model[id]) && Within(r.model[id] - price * 500000.0, 0.0000005)
    ensures id in r.completion && r.completion[id] == RoundRatio(completion / price)
    ensures SixDecimals(r.completion[id]) && Within(r.completion[id] - completion / price, 0.0000005)
    ensures listings[i].cacheRead.Some? && listings[i].cacheRead.value >= 0.0 ==>
              id in r.cache && SixDecimals(r.cache[id]) && Within(r.cache[id] - listings[i].cacheRead.value / price, 0.0000005)
  {
    LastingIsLast(listings, i);
    ConvertedEntry(listings, i);
    RatioIs(price * 1000.0 * UnitsPerDollar, r.model[id], price * 500000.0);
    RatioIs(completion / price, r.completion[id], completion / price);
    if Cached(listings[i]) {
      RatioIs(listings[i].cacheRead.value / price, r.cache[id], listings[i].cacheRead.value / price);
    }
  }

  /** A model whose last listing costs nothing gets a ratio of zero. */
  lemma ConvertedFree(listings: seq<Listing>, i: nat)
    requires Lasting(listings, i) && !Skipped(listings[i]) && (listings[i].prompt.None? || listings[i].prompt.value == 0.0)
    ensures listings[i].id in Converted(listings).model && Converted(listings).model[listings[i].id] == 0.0
  {
    LastingIsLast(listings, i);
    ConvertedEntry(listings, i);
  }

  /** Billing through the tables that come out: this close to the listed dollars, for any token counts. */
  lemma ConvertedBill(listings: seq<Listing>, i: nat, id: string, price: real, completion: real, r: Ratios, p: real, c: real)
    requires Lasting(listings, i) && Asks(listings[i], price, completion) && id == listings[i].id && r == Converted(listings)
    requires p >= 0.0 && c >= 0.0
    ensures id in r.model && id in r.completion
    ensures Within(Billed(p, c, r.model[id], r.completion[id]) - (price * p + completion * c), BillError(p, c, price, completion))
  {
    ConvertedRatios(listings, i, id, price, completion, r);
    ConversionError(p, c, price, completion);
  }

  // ---- Settlement in whole quota units ----

  /** The charge for a weighted token count, in whole units; a priced call costs at least one. */
  function Charge(tokens: int, modelRatio: real): (r: int) {
    var quota := RoundAway(tokens as real * modelRatio);
    if modelRatio != 0.0 && quota <= 0 then 1 else quota
  }

  /** The quota charged for a call: completion tokens are weighted and rounded first. */
  function Settled(p: int, c: int, modelRatio: real, completionRatio: real): (r: int) {
    Charge(p + RoundAway(c as real * completionRatio), modelRatio)
  }

  lemma UnitError(tokens: int, modelRatio: real)
    requires tokens >= 0 && modelRatio >= 0.0
    ensures Within(Charge(tokens, modelRatio) as real - tokens as real * modelRatio, 1.0)
  {
    ProductNonNegative(tokens as real, modelRatio);
    RoundFacts(tokens as real * modelRatio);
  }

  lemma RoundedWeight(charge: real, tokens: real, weight: real, modelRatio: real)
    requires modelRatio >= 0.0 && Within(charge - tokens * modelRatio, 1.0) && Within(tokens - weight, 0.5)
    ensures Within(charge - weight * modelRatio, 1.0 + modelRatio * 0.5)
  {
    var half := tokens - weight;
    ScaledError(modelRatio, half, 0.5);
    assert tokens == weight + half;
    assert tokens * modelRatio == weight * modelRatio + modelRatio * half;
    ErrorSum(charge - weight * modelRatio, charge - tokens * modelRatio, modelRatio * half, 1.0, modelRatio * 0.5);
  }

  lemma ChargeError(p: int, exact: real, modelRatio: real, weight: real)
    requires p >= 0 && exact >= 0.0 && modelRatio >= 0.0 && weight == p as real + exact
    ensures Within(Charge(p + RoundAway(exact), modelRatio) as real - weight * modelRatio, 1.0 + modelRatio * 0.5)
  {
    RoundFacts(exact);
    var tokens := p + RoundAway(exact);
    UnitError(tokens, modelRatio);
    RoundedWeight(Charge(tokens, modelRatio) as real, tokens as real, weight, modelRatio);
  }

  /** Settling in whole units adds at most half a token and one unit to the bill. */
  lemma SettlementError(p: int, c: int, modelRatio: real, completionRatio: real, weight: real)
    requires p >= 0 && c >= 0 && modelRatio >= 0.0 && completionRatio >= 0.0
    requires weight == p as real + c as real * completionRatio
    ensures Within(Settled(p, c, modelRatio, completionRatio) as real - weight * modelRatio, 1.0 + modelRatio * 0.5)
  {
    ProductNonNegative(c as real, completionRatio);
    ChargeError(p, c as real * completionRatio, modelRatio, weight);
  }

  /** The same bill error, with the weighted token count named. */
  lemma WeightedConversionError(p: real, c: real, price: real, completion: real, modelRatio: real, completionRatio: real, weight: real)
    requires p >= 0.0 && c >= 0.0 && price > 0.0 && completion >= 0.0
    requires modelRatio == RoundRatio(price * 1000.0 * UnitsPerDollar) && completionRatio == RoundRatio(completion / price)
    requires weight == p + c * completionRatio
    ensures Within(weight * (modelRatio / QuotaPerUnit) - (price * p + completion * c), BillError(p, c, price, completion))
  {
    ConversionError(p, c, price, completion);
  }

  lemma UnitsToDollars(settled: real, weight: real, modelRatio: real, dollars: real, unitError: real, dollarError: real)
    requires Within(settled - weight * modelRatio, unitError)
    requires Within(weight * (modelRatio / QuotaPerUnit) - dollars, dollarError)
    ensures Within(settled / QuotaPerUnit - dollars, unitError / QuotaPerUnit + dollarError)
  {
    assert weight * (modelRatio / QuotaPerUnit) == weight * modelRatio / QuotaPerUnit;
  }

  lemma ChargeInDollars(p: real, c: real, price: real, completion: real, modelRatio: real, completionRatio: real, weight: real, settled: real)
    requires p >= 0.0 && c >= 0.0 && price > 0.0 && completion >= 0.0
    requires modelRatio == RoundRatio(price * 1000.0 * UnitsPerDollar) && completionRatio == RoundRatio(completion / price)
    requires weight == p + c * completionRatio
    requires Within(settled - weight * modelRatio, 1.0 + modelRatio * 0.5)
    ensures Within(settled / QuotaPerUnit - (price * p + completion * c),
                   (1.0 + modelRatio * 0.5) / QuotaPerUnit + BillError(p, c, price, completion))
  {
    WeightedConversionError(p, c, price, completion, modelRatio, completionRatio, weight);
    UnitsToDollars(settled, weight, modelRatio, price * p + completion * c, 1.0 + modelRatio * 0.5, BillError(p, c, price, completion));
  }

  lemma RatioNonNegative(x: real)
    requires x >= 0.0
    ensures RoundRatio(x) >= 0.0
  {
    RoundFacts(x * 1000000.0);
  }

  lemma RatiosNonNegative(price: real, completion: real)
    requires price > 0.0 && completion >= 0.0
    ensures RoundRatio(price * 1000.0 * UnitsPerDollar) >= 0.0 && RoundRatio(completion / price) >= 0.0
  {
    QuotientTimes(completion, price);
    RatioNonNegative(price * 1000.0 * UnitsPerDollar);
    RatioNonNegative(completion / price);
  }

  /** From listed prices to the charge settled for a call: this close to the listed dollars, for any token counts. */
  lemma SettledConversionError(p: int, c: int, price: real, completion: real, prompt: real, completed: real,
                               modelRatio: real, completionRatio: real)
    requires p >= 0 && c >= 0 && prompt == p as real && completed == c as real && price > 0.0 && completion >= 0.0
    requires modelRatio == RoundRatio(price * 1000.0 * UnitsPerDollar) && completionRatio == RoundRatio(completion / price)
    ensures Within(Settled(p, c, modelRatio, completionRatio) as real / QuotaPerUnit - (price * prompt + completion * completed),
                   (1.0 + modelRatio * 0.5) / QuotaPerUnit + BillError(prompt, completed, price, completion))
  {
    var weight := prompt + completed * completionRatio;
    RatiosNonNegative(price, completion);
    SettlementError(p, c, modelRatio, completionRatio, weight);
    ChargeInDollars(prompt, completed, price, completion, modelRatio, completionRatio, weight,
                    Settled(p, c, modelRatio, completionRatio) as real);
  }

  /** The same for the charge settled through the tables that come out. */
  lemma ConvertedCharge(listings: seq<Listing>, i: nat, id: string, price: real, completion: real, r: Ratios, p: int, c: int, prompt: real, completed: real)
    requires Lasting(listings, i) && Asks(listings[i], price, completion) && id == listings[i].id && r == Converted(listings)
    requires p >= 0 && c >= 0 && prompt == p as real && completed == c as real
    ensures id in r.model && id in r.completion
    ensures Within(Settled(p, c, r.model[id], r.completion[id]) as real / 500000.0 - (price * prompt + completion * completed),
                   (1.0 + r.model[id] * 0.5) / 500000.0 + BillError(prompt, completed, price, completion))
  {
    ConvertedRatios(listings, i, id, price, completion, r);
    SettledConversionError(p, c, price, completion, prompt, completed, r.model[id], r.completion[id]);
  }

  /** The charge for so many tokens: the nearest whole number of units, halves up, but at least one unless the model is free. */
  lemma ChargeIs(tokens: int, modelRatio: real, exact: real)
    requires tokens >= 0 && modelRatio >= 0.0 && exact == tokens as real * modelRatio
    ensures exact >= 0.5 ==> Charge(tokens, modelRatio) as real - 0.5 <= exact < Charge(tokens, modelRatio) as real + 0.5
    ensures exact < 0.5 ==> Charge(tokens, modelRatio) == if modelRatio == 0.0 then 0 else 1
  {
    ProductNonNegative(tokens as real, modelRatio);
    RoundFacts(exact);
  }

  /** The tokens charged: the prompt and the completion weighted by its ratio, to the nearest token. */
  lemma SettledIs(p: int, c: int, modelRatio: real, completionRatio: real, weighted: real) returns (tokens: int)
    requires p >= 0 && c >= 0 && completionRatio >= 0.0 && weighted == c as real * completionRatio
    ensures Settled(p, c, modelRatio, completionRatio) == Charge(tokens, modelRatio)
    ensures tokens >= p && (tokens - p) as real - 0.5 <= weighted < (tokens - p) as real + 0.5
  {
    ProductNonNegative(c as real, completionRatio);
    RoundFacts(weighted);
    tokens := p + RoundAway(weighted);
  }
}
