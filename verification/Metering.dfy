/**
What usage costs and how spending caps are enforced. Money is whole: costs are rounded to
micro-dollars, and before rounding every cost is a whole number of nano-dollars, because the price
table lists prices with at most three decimals per million tokens.
*/
module Metering {
  import opened Options
  import opened Text

  type Id = string

  datatype UsageEventType = MODEL_TOKENS | EMAIL_SENT | BROWSER_RENDER | ENRICHMENT_CALL

  // Milli-dollars per million tokens, that is nano-dollars per token.
  datatype Pricing = Pricing(prompt: nat, completion: nat, blended: nat)

  const DEFAULT_PRICING := Pricing(3000, 15000, 9000)

  function PricingOf(model: string): Pricing {
    var name := Lower(model);
    if name == "claude-3-5-sonnet-20241022" || name == "claude-3-5-sonnet" then Pricing(3000, 15000, 9000)
    else if name == "gpt-4o" then Pricing(5000, 15000, 10000)
    else if name == "gpt-4o-mini" then Pricing(150, 600, 375)
    else if name == "text-embedding-3-small" then Pricing(20, 20, 20)
    else if name == "text-embedding-3-large" then Pricing(130, 130, 130)
    else DEFAULT_PRICING
  }

  function Value(event: UsageEventType): string {
    match event
    case MODEL_TOKENS => "MODEL_TOKENS"
    case EMAIL_SENT => "EMAIL_SENT"
    case BROWSER_RENDER => "BROWSER_RENDER"
    case ENRICHMENT_CALL => "ENRICHMENT_CALL"
  }

  // Nano-dollars per unit; an event nobody priced is free.
  function UnitCost(event: string): nat {
    var name := Upper(event);
    if name == Value(EMAIL_SENT) then 1_000_000
    else if name == Value(BROWSER_RENDER) then 5_000_000
    else if name == Value(ENRICHMENT_CALL) then 20_000_000
    else if name == Value(MODEL_TOKENS) then 9_000
    else 0
  }

  // Rounds nano-dollars to micro-dollars, halves away from zero.
  function Quantize(nano: int): int {
    if nano >= 0 then (nano + 500) / 1000 else -((-nano + 500) / 1000)
  }

  datatype Usage = Usage(event: string, model: Option<string>, units: int, prompt: int, completion: int) {
    predicate HasModel() { model.Some? && model.value != "" }

    predicate Counted() { units >= 0 && prompt >= 0 && completion >= 0 }
  }

  // Prompt and completion tokens are given, so units do not matter.
  predicate ByTokens(u: Usage) { u.HasModel() && (u.prompt > 0 || u.completion > 0) }

  function ExactCost(u: Usage): int {
    if u.units <= 0 && u.prompt <= 0 && u.completion <= 0 then 0
    else if ByTokens(u) then
      u.prompt * PricingOf(u.model.value).prompt + u.completion * PricingOf(u.model.value).completion
    else if u.HasModel() then u.units * PricingOf(u.model.value).blended
    else u.units * UnitCost(u.event)
  }

  // The cost in micro-dollars.
  function CalculateCost(u: Usage): int { Quantize(ExactCost(u)) }

  // ----- Rounding -----

  function Abs(x: int): nat { if x < 0 then -x else x }

  // The rounded value is the one micro-dollar amount nearest to the exact one; between two equally
  // near it is the one farther from zero.
  lemma {:induction false} QuantizeIsNearest(nano: int, micro: int)
    ensures micro == Quantize(nano) <==>
              Abs(1000 * micro - nano) < 500
              || (Abs(1000 * micro - nano) == 500 && Abs(1000 * micro) > Abs(nano))
  {
  }

  lemma {:induction false} QuantizeMonotone(a: int, b: int)
    requires a <= b
    ensures Quantize(a) <= Quantize(b)
  {
  }

  // The exact total of a list of costs in nano-dollars, and the total of what is recorded for them.
  function ExactTotal(costs: seq<int>): int {
    if costs == [] then 0 else ExactTotal(costs[..|costs| - 1]) + costs[|costs| - 1]
  }

  function RecordedTotal(costs: seq<int>): int {
    if costs == [] then 0 else RecordedTotal(costs[..|costs| - 1]) + Quantize(costs[|costs| - 1])
  }

  // n recorded costs are off by at most half a micro-dollar each.
  lemma {:induction false} TotalDriftBounded(costs: seq<int>)
    ensures Abs(1000 * RecordedTotal(costs) - ExactTotal(costs)) <= 500 * |costs|
  {
    if costs != [] {
      TotalDriftBounded(costs[..|costs| - 1]);
      QuantizeIsNearest(costs[|costs| - 1], Quantize(costs[|costs| - 1]));
    }
  }

  // The errors need not cancel: bills for four blended tokens of the small model reach the bound for
  // every n.
  lemma {:induction false} TotalDriftAttained(costs: seq<int>)
    requires forall i | 0 <= i < |costs| ::
               costs[i] == ExactCost(Usage("MODEL_TOKENS", Some("gpt-4o-mini"), 4, 0, 0))
    ensures 1000 * RecordedTotal(costs) - ExactTotal(costs) == 500 * |costs|
  {
    FourSmallTokens(Usage("MODEL_TOKENS", Some("gpt-4o-mini"), 4, 0, 0));
    HalvesAddUp(costs);
  }

  lemma {:induction false} HalvesAddUp(costs: seq<int>)
    requires forall i | 0 <= i < |costs| :: costs[i] == 1500
    ensures 1000 * RecordedTotal(costs) - ExactTotal(costs) == 500 * |costs|
  {
    if costs != [] {
      HalvesAddUp(costs[..|costs| - 1]);
    }
  }

  lemma {:induction false} SmallModelPricing(name: string)
    requires name == "gpt-4o-mini"
    ensures PricingOf(name) == Pricing(150, 600, 375)
  {
    LowerFixes(name);
    assert |name| == 11 && |"claude-3-5-sonnet"| == 17 && |"claude-3-5-sonnet-20241022"| == 26 && |"gpt-4o"| == 6;
  }

  lemma {:induction false} FourSmallTokens(u: Usage)
    requires u == Usage("MODEL_TOKENS", Some("gpt-4o-mini"), 4, 0, 0)
    ensures ExactCost(u) == 1500 && CalculateCost(u) == 2
  {
    SmallModelPricing(u.model.value);
  }

  // ----- What a bill comes to -----

  // Token bills of one model add up, in either count; so do bills of units.
  lemma {:induction false} TokenBillsAdd(event: string, model: string, p: nat, c: nat, q: nat, d: nat, units: int)
    requires model != "" && p + c > 0 && q + d > 0
    ensures ExactCost(Usage(event, Some(model), units, p + q, c + d))
         == ExactCost(Usage(event, Some(model), units, p, c)) + ExactCost(Usage(event, Some(model), units, q, d))
  {
    var pricing := PricingOf(model);
    TimesAdds(p, q, pricing.prompt);
    TimesAdds(c, d, pricing.completion);
  }

  lemma {:induction false} UnitBillsAdd(event: string, model: Option<string>, m: nat, n: nat)
    ensures ExactCost(Usage(event, model, m + n, 0, 0))
         == ExactCost(Usage(event, model, m, 0, 0)) + ExactCost(Usage(event, model, n, 0, 0))
  {
    var u := Usage(event, model, m + n, 0, 0);
    TimesAdds(m, n, if u.HasModel() then PricingOf(model.value).blended else UnitCost(event));
  }

  lemma {:induction false} TimesAdds(a: int, b: int, k: int)
    ensures (a + b) * k == a * k + b * k
  {
  }

  // What a million prompt tokens, a million completion tokens and a million units come to, in micro-dollars.
  predicate MillionsCost(event: string, model: string, units: int, prompt: int, completion: int, blended: int) {
    && CalculateCost(Usage(event, Some(model), units, 1_000_000, 0)) == prompt
    && CalculateCost(Usage(event, Some(model), units, 0, 1_000_000)) == completion
    && CalculateCost(Usage(event, Some(model), 1_000_000, 0, 0)) == blended
  }

  lemma {:induction false} SonnetPrices(event: string, model: string, units: int)
    requires Lower(model) == "claude-3-5-sonnet" || Lower(model) == "claude-3-5-sonnet-20241022"
    ensures MillionsCost(event, model, units, 3_000_000, 15_000_000, 9_000_000)
  {
  }

  lemma {:induction false} Gpt4oPrices(event: string, model: string, units: int)
    requires Lower(model) == "gpt-4o"
    ensures MillionsCost(event, model, units, 5_000_000, 15_000_000, 10_000_000)
  {
    assert |Lower(model)| == 6;
  }

  lemma {:induction false} Gpt4oMiniPrices(event: string, model: string, units: int)
    requires Lower(model) == "gpt-4o-mini"
    ensures MillionsCost(event, model, units, 150_000, 600_000, 375_000)
  {
    assert |Lower(model)| == 11;
  }

  lemma {:induction false} SmallEmbeddingPrices(event: string, model: string, units: int)
    requires Lower(model) == "text-embedding-3-small"
    ensures MillionsCost(event, model, units, 20_000, 20_000, 20_000)
  {
    assert |Lower(model)| == 22;
  }

  lemma {:induction false} LargeEmbeddingPrices(event: string, model: string, units: int)
    requires Lower(model) == "text-embedding-3-large"
    ensures MillionsCost(event, model, units, 130_000, 130_000, 130_000)
  {
    assert |Lower(model)| == 22 && Lower(model)[17] == 'l';
  }

  predicate IsListed(name: string) {
    || name == "claude-3-5-sonnet-20241022" || name == "claude-3-5-sonnet" || name == "gpt-4o"
    || name == "gpt-4o-mini" || name == "text-embedding-3-small" || name == "text-embedding-3-large"
  }

  lemma {:induction false} SonnetPricing(name: string)
    requires name == "claude-3-5-sonnet"
    ensures name != "" && PricingOf(name) == DEFAULT_PRICING
  {
    LowerFixes(name);
  }

  lemma {:induction false} SamePricing(u: Usage, model: string)
    requires u.HasModel() && model != "" && PricingOf(model) == PricingOf(u.model.value)
    ensures CalculateCost(u) == CalculateCost(u.(model := Some(model)))
  {
  }

  // A model that is not listed is billed as claude-3-5-sonnet.
  lemma {:induction false} UnlistedModelCost(u: Usage, model: string)
    requires u.HasModel() && !IsListed(Lower(u.model.value)) && model == "claude-3-5-sonnet"
    ensures CalculateCost(u) == CalculateCost(u.(model := Some(model)))
  {
    SonnetPricing(model);
    SamePricing(u, model);
  }

  // Units without a model cost what their event lists, in micro-dollars; an event nobody priced is free.
  lemma {:induction false} UnitPrices(event: string, model: Option<string>)
    requires model == None || model == Some("")
    ensures var cost := CalculateCost(Usage(event, model, 1, 0, 0));
            && (Upper(event) == "EMAIL_SENT" ==> cost == 1_000)
            && (Upper(event) == "BROWSER_RENDER" ==> cost == 5_000)
            && (Upper(event) == "ENRICHMENT_CALL" ==> cost == 20_000)
            && (Upper(event) == "MODEL_TOKENS" ==> cost == 9)
            && (cost != 0 ==> Upper(event) in ["EMAIL_SENT", "BROWSER_RENDER", "ENRICHMENT_CALL", "MODEL_TOKENS"])
  {
    var name := Upper(event);
    assert Value(EMAIL_SENT)[0] == 'E' && Value(ENRICHMENT_CALL)[0] == 'E' && Value(BROWSER_RENDER)[0] == 'B';
    assert |Value(EMAIL_SENT)| == 10 && |Value(ENRICHMENT_CALL)| == 15 && Value(MODEL_TOKENS)[0] == 'M';
  }

  // Nothing is billed for nothing.
  lemma {:induction false} NothingIsFree(u: Usage)
    requires u.units <= 0 && u.prompt <= 0 && u.completion <= 0
    ensures CalculateCost(u) == 0
  {
  }

  // ----- Monotonicity -----

  lemma {:induction false} TimesGrows(a: int, b: int, k: nat)
    requires a <= b
    ensures a * k <= b * k
  {
  }

  // More of everything never costs less, as long as both bills are made the same way.
  lemma {:induction false} CostMonotone(u: Usage, v: Usage)
    requires u.Counted() && u.event == v.event && u.model == v.model
    requires u.units <= v.units && u.prompt <= v.prompt && u.completion <= v.completion
    requires ByTokens(u) || !ByTokens(v)
    ensures 0 <= CalculateCost(u) <= CalculateCost(v)
  {
    var p := if u.HasModel() then PricingOf(u.model.value) else DEFAULT_PRICING;
    TimesGrows(u.units, v.units, p.blended);
    TimesGrows(0, u.units, p.blended);
    TimesGrows(u.units, v.units, UnitCost(u.event));
    TimesGrows(0, u.units, UnitCost(u.event));
    TimesGrows(u.prompt, v.prompt, p.prompt);
    TimesGrows(0, u.prompt, p.prompt);
    TimesGrows(u.completion, v.completion, p.completion);
    TimesGrows(0, u.completion, p.completion);
    QuantizeMonotone(0, ExactCost(u));
    QuantizeMonotone(ExactCost(u), ExactCost(v));
  }

  // Adding token counts to a bill never lowers it, whatever the units, exactly when the bill was by
  // tokens already or still is not: the first token replaces the price of all units.
  lemma {:induction false} CostMonotoneExactly(event: string, model: Option<string>, p: nat, c: nat, q: nat, d: nat)
    requires p <= q && c <= d
    ensures (forall units: nat ::
               CalculateCost(Usage(event, model, units, p, c)) <= CalculateCost(Usage(event, model, units, q, d)))
       <==> ByTokens(Usage(event, model, 0, p, c)) || !ByTokens(Usage(event, model, 0, q, d))
  {
    if ByTokens(Usage(event, model, 0, p, c)) || !ByTokens(Usage(event, model, 0, q, d)) {
      forall units: nat
        ensures CalculateCost(Usage(event, model, units, p, c)) <= CalculateCost(Usage(event, model, units, q, d))
      {
        CostMonotone(Usage(event, model, units, p, c), Usage(event, model, units, q, d));
      }
    } else {
      var units := TokensReplaceUnits(event, model, q, d);
      assert CalculateCost(Usage(event, model, units, p, c)) > CalculateCost(Usage(event, model, units, q, d));
    }
  }

  lemma {:induction false} TokensReplaceUnits(event: string, model: Option<string>, q: nat, d: nat) returns (units: nat)
    requires ByTokens(Usage(event, model, 0, q, d))
    ensures CalculateCost(Usage(event, model, units, 0, 0)) > CalculateCost(Usage(event, model, units, q, d))
  {
    var pricing := PricingOf(model.value);
    var exact := q * pricing.prompt + d * pricing.completion;
    TimesGrows(0, q, pricing.prompt);
    TimesGrows(0, d, pricing.completion);
    units := exact + 1000;
    TimesGrows(1, pricing.blended, units);
    assert ExactCost(Usage(event, model, units, q, d)) == exact;
    assert ExactCost(Usage(event, model, units, 0, 0)) == units * pricing.blended >= exact + 1000;
    QuantizeMonotone(exact + 1000, units * pricing.blended);
  }

  // ----- Recording usage and enforcing the cap -----

  datatype CampaignState = DRAFT | REVIEW | SCHEDULED | RUNNING | PAUSED | COMPLETED | ARCHIVED

  datatype Campaign = Campaign(workspace: Id, status: CampaignState)

  datatype UsageEvent = UsageEvent(workspace: Id, event: UsageEventType, units: int, costMicro: int)

  datatype AuditLog = AuditLog(workspace: Id, spend: int, limit: real, paused: seq<nat>)

  // The tables: a workspace's cap, if it has one, is in micro-dollars; campaigns are named by their row.
  datatype Books = Books(events: seq<UsageEvent>, caps: map<Id, Option<real>>, campaigns: seq<Campaign>,
                         audit: seq<AuditLog>)

  function Spend(events: seq<UsageEvent>, w: Id): int {
    if events == [] then 0
    else
      var last := events[|events| - 1];
      Spend(events[..|events| - 1], w) + if last.workspace == w then last.costMicro else 0
  }

  predicate Active(c: Campaign, w: Id) {
    c.workspace == w && (c.status == RUNNING || c.status == SCHEDULED)
  }

  predicate OverCap(b: Books, w: Id) {
    w in b.caps && b.caps[w].Some? && Spend(b.events, w) as real >= b.caps[w].value
  }

  function Pause(c: Campaign, w: Id): Campaign {
    if Active(c, w) then c.(status := PAUSED) else c
  }

  function PauseAll(cs: seq<Campaign>, w: Id): (r: seq<Campaign>)
    ensures |r| == |cs| && forall i | 0 <= i < |cs| :: r[i] == Pause(cs[i], w)
  {
    seq(|cs|, i requires 0 <= i < |cs| => Pause(cs[i], w))
  }

  function ActiveRows(cs: seq<Campaign>, w: Id): (rows: seq<nat>)
    ensures forall i :: i in rows <==> 0 <= i < |cs| && Active(cs[i], w)
  {
    if cs == [] then []
    else
      var last := |cs| - 1;
      ActiveRows(cs[..last], w) + if Active(cs[last], w) then [last] else []
  }

  function Enforced(b: Books, w: Id): Books {
    if OverCap(b, w) then
      b.(campaigns := PauseAll(b.campaigns, w),
         audit := b.audit + [AuditLog(w, Spend(b.events, w), b.caps[w].value, ActiveRows(b.campaigns, w))])
    else b
  }

  function EventOf(w: Id, t: UsageEventType, u: Usage): (e: UsageEvent) {
    UsageEvent(w, t, u.units, CalculateCost(u))
  }

  function Inserted(b: Books, e: UsageEvent): Books { b.(events := b.events + [e]) }

  // The event is committed first; the cap is enforced by a second commit.
  function Recorded(b: Books, e: UsageEvent): Books { Enforced(Inserted(b, e), e.workspace) }

  // How record_usage reads an event given by name.
  function Resolve(name: string, hasModel: bool): UsageEventType {
    var n := Upper(name);
    if Contains(n, "TOKEN") || hasModel then MODEL_TOKENS
    else if Contains(n, "EMAIL") then EMAIL_SENT
    else if Contains(n, "BROWSER") || Contains(n, "RENDER") then BROWSER_RENDER
    else if Contains(n, "ENRICH") then ENRICHMENT_CALL
    else MODEL_TOKENS
  }

  lemma {:induction false} OccurrenceHas(s: string, sub: string, i: int, k: nat)
    requires OccursAt(s, sub, i) && k < |sub|
    ensures sub[k] in s
  {
    assert s[i..i + |sub|][k] == s[i + k];
  }

  // A word with a letter the name lacks does not occur in it; k is the letter's place.
  lemma {:induction false} Lacks(s: string, sub: string, k: nat)
    requires k < |sub| && sub[k] !in s
    ensures !Contains(s, sub)
  {
    forall i | 0 <= i <= |s|
      ensures !OccursAt(s, sub, i)
    {
      if OccursAt(s, sub, i) {
        OccurrenceHas(s, sub, i, k);
      }
    }
  }

  lemma {:induction false} EmailResolves(n: string)
    requires n == Value(EMAIL_SENT)
    ensures !Contains(n, "TOKEN") && Contains(n, "EMAIL")
  {
    Lacks(n, "TOKEN", 2);
    assert OccursAt(n, "EMAIL", 0);
  }

  lemma {:induction false} BrowserResolves(n: string)
    requires n == Value(BROWSER_RENDER)
    ensures !Contains(n, "TOKEN") && !Contains(n, "EMAIL") && Contains(n, "BROWSER")
  {
    Lacks(n, "TOKEN", 2);
    Lacks(n, "EMAIL", 2);
    assert OccursAt(n, "BROWSER", 0);
  }

  lemma {:induction false} EnrichmentResolves(n: string)
    requires n == Value(ENRICHMENT_CALL)
    ensures !Contains(n, "TOKEN") && !Contains(n, "BROWSER") && !Contains(n, "RENDER") && Contains(n, "ENRICH")
  {
    Lacks(n, "TOKEN", 2);
    Lacks(n, "BROWSER", 0);
    Lacks(n, "RENDER", 3);
    assert OccursAt(n, "ENRICH", 0);
  }

  // Without a model each type's own name is read as that type, in any case; with one every name is tokens.
  lemma {:induction false} NamesResolve(name: string, t: UsageEventType)
    requires Upper(name) == Value(t)
    ensures Resolve(name, false) == t && Resolve(name, true) == MODEL_TOKENS
  {
    var n := Upper(name);
    match t
    case MODEL_TOKENS => assert OccursAt(n, "TOKEN", 6);
    case EMAIL_SENT => EmailResolves(n);
    case BROWSER_RENDER => BrowserResolves(n);
    case ENRICHMENT_CALL =>
      EnrichmentResolves(n);
      NoEmail(n);
  }

  lemma {:induction false} NoEmail(n: string)
    requires n == Value(ENRICHMENT_CALL)
    ensures !Contains(n, "EMAIL")
  {
    forall i | 0 <= i <= |n|
      ensures !OccursAt(n, "EMAIL", i)
    {
      assert OccursAt(n, "EMAIL", i) ==> n[i] == 'E' && n[i + 1] == 'M' by {
        if OccursAt(n, "EMAIL", i) {
          assert n[i..i + 5][0] == 'E' && n[i..i + 5][1] == 'M';
        }
      }
      assert forall k | 0 <= k < 14 && n[k] == 'E' :: n[k + 1] == 'N';
    }
  }

  datatype EventName = Typed(event: UsageEventType) | Named(name: string)

  function Resolved(e: EventName, u: Usage): UsageEventType {
    match e
    case Typed(event) => event
    case Named(name) => Resolve(name, u.HasModel())
  }

  datatype Verdict = Verdict(exceeded: bool, spend: int, limit: Option<real>, paused: nat)

  class Meter {
    var events: seq<UsageEvent>
    var caps: map<Id, Option<real>>
    var campaigns: seq<Campaign>
    var audit: seq<AuditLog>

    function State(): Books
      reads this
    {
      Books(events, caps, campaigns, audit)
    }

    constructor (b: Books)
      ensures State() == b
    {
      events, caps, campaigns, audit := b.events, b.caps, b.campaigns, b.audit;
    }

    method TotalSpend(w: Id) returns (sum: int)
      ensures sum == Spend(events, w)
    {
      sum := 0;
      for i := 0 to |events|
        invariant sum == Spend(events[..i], w)
      {
        assert events[..i + 1][..i] == events[..i];
        if events[i].workspace == w {
          sum := sum + events[i].costMicro;
        }
      }
      assert events[..|events|] == events;
    }

    method EnforceSpendingLimits(w: Id) returns (v: Verdict)
      modifies this
      ensures State() == Enforced(old(State()), w)
      ensures v.exceeded == OverCap(old(State()), w) && v.spend == Spend(old(events), w)
      ensures v.paused == if v.exceeded then |ActiveRows(old(campaigns), w)| else 0
    {
      var spend := TotalSpend(w);
      if w !in caps {
        return Verdict(false, spend, None, 0);
      }
      var limit := caps[w];
      if limit.Some? && spend as real >= limit.value {
        var paused: seq<nat> := [];
        var active := ActiveRows(campaigns, w);
        ghost var before := campaigns;
        for i := 0 to |active|
          modifies this`campaigns
          invariant |campaigns| == |before| && paused == active[..i]
          invariant forall k | 0 <= k < |before| ::
                      campaigns[k] == if k in active[..i] then Pause(before[k], w) else before[k]
        {
          assert active[i] in active;
          campaigns := campaigns[active[i] := campaigns[active[i]].(status := PAUSED)];
          paused := paused + [active[i]];
        }
        assert active[..|active|] == active;
        assert campaigns == PauseAll(before, w);
        audit := audit + [AuditLog(w, spend, limit.value, paused)];
        return Verdict(true, spend, limit, |paused|);
      }
      return Verdict(false, spend, limit, 0);
    }

    // The first commit.  The usage's event field is overwritten by the resolved type, as the caller's
    // name is.
    method AddEvent(w: Id, name: EventName, u: Usage) returns (event: UsageEvent)
      modifies this`events
      ensures var t := Resolved(name, u);
              && event == EventOf(w, t, u.(event := Value(t))) && State() == Inserted(old(State()), event)
              && event.workspace == w && event.units == u.units
    {
      var t: UsageEventType;
      match name {
        case Typed(e) => t := e;
        case Named(n) => t := Resolve(n, u.HasModel());
      }
      event := UsageEvent(w, t, u.units, CalculateCost(u.(event := Value(t))));
      events := events + [event];
    }

    method RecordUsage(w: Id, name: EventName, u: Usage) returns (event: UsageEvent)
      modifies this
      ensures var t := Resolved(name, u);
              event == EventOf(w, t, u.(event := Value(t))) && State() == Recorded(old(State()), event)
    {
      event := AddEvent(w, name, u);
      var _ := EnforceSpendingLimits(w);
    }
  }

  // ----- Runs -----

  // One call of record_usage, which makes this event at an exact price in nano-dollars and, if dies,
  // whose process dies between the two commits; or the API setting a campaign's status, by a launch, a
  // resume, a pause or an edit, none of which look at the cap.
  datatype Act =
    | Charge(event: UsageEvent, exact: int, dies: bool)
    | SetStatus(workspace: Id, campaign: nat, status: CampaignState)

  function AfterCharge(b: Books, event: UsageEvent, dies: bool): Books {
    if dies then Inserted(b, event) else Recorded(b, event)
  }

  // A campaign of another workspace is not found.
  function AfterSet(b: Books, w: Id, i: nat, status: CampaignState): Books {
    if i < |b.campaigns| && b.campaigns[i].workspace == w
    then b.(campaigns := b.campaigns[i := b.campaigns[i].(status := status)]) else b
  }

  function AfterAct(b: Books, act: Act): Books {
    match act
    case Charge(event, _, dies) => AfterCharge(b, event, dies)
    case SetStatus(w, i, status) => AfterSet(b, w, i, status)
  }

  function RunAll(b: Books, acts: seq<Act>): Books {
    if acts == [] then b else AfterAct(RunAll(b, acts[..|acts| - 1]), acts[|acts| - 1])
  }

  predicate IsActive(s: CampaignState) { s.RUNNING? || s.SCHEDULED? }

  // A workspace whose spend has reached its cap runs nothing.
  predicate CapHeld(b: Books, w: Id) {
    OverCap(b, w) ==> forall i | 0 <= i < |b.campaigns| :: !Active(b.campaigns[i], w)
  }

  // What an act adds to the spend of w.
  function Added(act: Act, w: Id): int { if act.Charge? && act.event.workspace == w then act.event.costMicro else 0 }

  predicate Enforces(act: Act, w: Id) { act.Charge? && act.event.workspace == w && !act.dies }

  function TotalAdded(acts: seq<Act>, w: Id): int {
    if acts == [] then 0 else TotalAdded(acts[..|acts| - 1], w) + Added(acts[|acts| - 1], w)
  }

  // What w has used since the last usage that was followed by its enforcement.
  function Unenforced(acts: seq<Act>, w: Id): int {
    if acts == [] then 0
    else
      var last := acts[|acts| - 1];
      if Enforces(last, w) then 0 else Unenforced(acts[..|acts| - 1], w) + Added(last, w)
  }

  // The campaigns of w that were set active since then and not set otherwise again.
  function LeftActive(acts: seq<Act>, w: Id): set<nat> {
    if acts == [] then {}
    else
      var last, before := acts[|acts| - 1], LeftActive(acts[..|acts| - 1], w);
      if Enforces(last, w) then {}
      else if last.SetStatus? && last.workspace == w then
        if IsActive(last.status) then before + {last.campaign} else before - {last.campaign}
      else before
  }

  predicate NonNegative(acts: seq<Act>) {
    forall i | 0 <= i < |acts| && acts[i].Charge? :: acts[i].event.costMicro >= 0
  }

  lemma {:induction false} ActAdds(b: Books, act: Act, w: Id)
    ensures Spend(AfterAct(b, act).events, w) == Spend(b.events, w) + Added(act, w)
    ensures AfterAct(b, act).caps == b.caps && |AfterAct(b, act).campaigns| == |b.campaigns|
  {
    if act.Charge? {
      var events := b.events + [act.event];
      assert events[..|events| - 1] == b.events;
    }
  }

  lemma {:induction false} RunAdds(b: Books, acts: seq<Act>, w: Id)
    ensures Spend(RunAll(b, acts).events, w) == Spend(b.events, w) + TotalAdded(acts, w)
    ensures RunAll(b, acts).caps == b.caps && |RunAll(b, acts).campaigns| == |b.campaigns|
  {
    if acts != [] {
      RunAdds(b, acts[..|acts| - 1], w);
      ActAdds(RunAll(b, acts[..|acts| - 1]), acts[|acts| - 1], w);
    }
  }

  // What an act does to a campaign: an enforcement pauses, a setting sets, and nothing else touches it.
  function CampaignAfter(b: Books, act: Act, i: nat): Campaign
    requires i < |b.campaigns|
  {
    var c := b.campaigns[i];
    match act
    case Charge(event, _, dies) =>
      if !dies && OverCap(Inserted(b, event), event.workspace) then Pause(c, event.workspace) else c
    case SetStatus(w, j, status) => if i == j && c.workspace == w then c.(status := status) else c
  }

  lemma {:induction false} CampaignAfterExact(b: Books, act: Act, i: nat)
    requires i < |b.campaigns|
    ensures i < |AfterAct(b, act).campaigns| && AfterAct(b, act).campaigns[i] == CampaignAfter(b, act, i)
  {
  }

  // A usage pauses the running and scheduled campaigns of its workspace, and no others, exactly if the
  // spend, its own cost included, has reached the cap.
  lemma {:induction false} UsagePausesExactly(b: Books, w: Id, t: UsageEventType, u: Usage, i: nat)
    requires i < |b.campaigns|
    ensures var c, after := b.campaigns[i], Recorded(b, EventOf(w, t, u)).campaigns;
            && i < |after| && after[i].workspace == c.workspace
            && after[i].status
               == if c.workspace == w && (c.status == RUNNING || c.status == SCHEDULED)
                     && w in b.caps && b.caps[w].Some? && (Spend(b.events, w) + CalculateCost(u)) as real >= b.caps[w].value
                  then PAUSED else c.status
  {
    var event := EventOf(w, t, u);
    ActAdds(b, Charge(event, 0, true), w);
  }

  // Exactly then it adds one audit entry, with the spend, the cap and the campaigns it has paused.
  lemma {:induction false} UsageAuditsExactly(b: Books, w: Id, t: UsageEventType, u: Usage)
    ensures var spend, after := Spend(b.events, w) + CalculateCost(u), Recorded(b, EventOf(w, t, u));
            if w in b.caps && b.caps[w].Some? && spend as real >= b.caps[w].value then
              exists paused: seq<nat> ::
                && after.audit == b.audit + [AuditLog(w, spend, b.caps[w].value, paused)]
                && |after.campaigns| == |b.campaigns|
                && forall i: nat :: i in paused <==> i < |b.campaigns| && after.campaigns[i] != b.campaigns[i]
            else after == Inserted(b, EventOf(w, t, u))
  {
    var event := EventOf(w, t, u);
    ActAdds(b, Charge(event, 0, true), w);
    if OverCap(Inserted(b, event), w) {
      var paused := ActiveRows(b.campaigns, w);
      assert Recorded(b, event).audit
          == b.audit + [AuditLog(w, Spend(b.events, w) + CalculateCost(u), b.caps[w].value, paused)];
    }
  }

  // ----- Caps over runs -----

  // An enforced usage holds the cap, whatever the books were.
  lemma {:induction false} EnforcementHoldsCap(b: Books, act: Act, w: Id)
    requires Enforces(act, w)
    ensures CapHeld(AfterAct(b, act), w)
  {
  }

  // While all that counts was free, only campaigns left active can run over the cap.
  predicate OnlyLeftActive(b: Books, acts: seq<Act>, w: Id) {
    OverCap(b, w) ==> forall i | 0 <= i < |b.campaigns| && Active(b.campaigns[i], w) :: i in LeftActive(acts, w)
  }

  lemma {:induction false} UnenforcedIsNonNegative(acts: seq<Act>, w: Id)
    requires NonNegative(acts)
    ensures 0 <= Unenforced(acts, w) <= TotalAdded(acts, w)
  {
    if acts != [] {
      var last := |acts| - 1;
      assert Added(acts[last], w) >= 0;
      UnenforcedIsNonNegative(acts[..last], w);
    }
  }

  lemma {:induction false} RunsOnlyLeftActive(b: Books, acts: seq<Act>, w: Id)
    requires CapHeld(b, w) && NonNegative(acts) && Unenforced(acts, w) == 0
    ensures OnlyLeftActive(RunAll(b, acts), acts, w)
  {
    if acts != [] {
      var last := |acts| - 1;
      var act, mid := acts[last], RunAll(b, acts[..last]);
      if Enforces(act, w) {
        EnforcementHoldsCap(mid, act, w);
      } else {
        UnenforcedIsNonNegative(acts[..last], w);
        assert Added(act, w) >= 0;
        RunsOnlyLeftActive(b, acts[..last], w);
        ActKeepsLeftActive(mid, acts[..last], act, w);
        assert acts == acts[..last] + [act];
      }
    }
  }

  lemma {:induction false} ActKeepsLeftActive(b: Books, acts: seq<Act>, act: Act, w: Id)
    requires OnlyLeftActive(b, acts, w) && !Enforces(act, w) && Added(act, w) == 0
    ensures OnlyLeftActive(AfterAct(b, act), acts + [act], w)
  {
    var after := AfterAct(b, act);
    ActAdds(b, act, w);
    assert (acts + [act])[..|acts|] == acts;
    if OverCap(after, w) {
      forall i | 0 <= i < |after.campaigns| && Active(after.campaigns[i], w)
        ensures i in LeftActive(acts + [act], w)
      {
        CampaignAfterExact(b, act, i);
      }
    }
  }

  // The spend the last enforcement saw never falls.
  lemma {:induction false} EarlierEnforcedLess(acts: seq<Act>, w: Id)
    requires NonNegative(acts) && acts != []
    ensures var before := acts[..|acts| - 1];
            TotalAdded(before, w) - Unenforced(before, w) <= TotalAdded(acts, w) - Unenforced(acts, w)
  {
    UnenforcedIsNonNegative(acts[..|acts| - 1], w);
    assert acts[|acts| - 1].Charge? ==> acts[|acts| - 1].event.costMicro >= 0;
  }

  lemma {:induction false} UnderCapStaysActive(b: Books, act: Act, w: Id, k: nat)
    requires k < |b.campaigns| && Active(b.campaigns[k], w)
    requires act.SetStatus? ==> act.campaign != k
    requires Enforces(act, w) ==>
               w in b.caps && b.caps[w].Some? && (Spend(b.events, w) + Added(act, w)) as real < b.caps[w].value
    ensures k < |AfterAct(b, act).campaigns| && Active(AfterAct(b, act).campaigns[k], w)
  {
    CampaignAfterExact(b, act, k);
    if act.Charge? {
      ActAdds(b, Charge(act.event, act.exact, true), w);
    }
  }

  // A campaign that no act names stays active as long as every enforcement finds the spend under the cap.
  lemma {:induction false} StaysActive(b: Books, acts: seq<Act>, w: Id, k: nat)
    requires NonNegative(acts) && b.events == [] && w in b.caps && b.caps[w].Some?
    requires k < |b.campaigns| && Active(b.campaigns[k], w)
    requires forall i | 0 <= i < |acts| && acts[i].SetStatus? :: acts[i].campaign != k
    requires (TotalAdded(acts, w) - Unenforced(acts, w)) as real < b.caps[w].value
    ensures k < |RunAll(b, acts).campaigns| && Active(RunAll(b, acts).campaigns[k], w)
  {
    if acts != [] {
      var last := |acts| - 1;
      EarlierEnforcedLess(acts, w);
      StaysActive(b, acts[..last], w, k);
      RunAdds(b, acts[..last], w);
      UnderCapStaysActive(RunAll(b, acts[..last]), acts[last], w, k);
    }
  }

  // Books in which everything runs and the cap is a given amount.
  function Running(w: Id, cap: int, n: nat): Books {
    Books([], map[w := Some(cap as real)], seq(n, _ => Campaign(w, RUNNING)), [])
  }

  lemma {:induction false} UnnamedCampaign(acts: seq<Act>) returns (k: nat)
    ensures forall i | 0 <= i < |acts| && acts[i].SetStatus? :: acts[i].campaign < k
  {
    k := 0;
    if acts != [] {
      var last := |acts| - 1;
      k := UnnamedCampaign(acts[..last]);
      if acts[last].SetStatus? && acts[last].campaign >= k {
        k := acts[last].campaign + 1;
      }
    }
  }

  // Usage that costs something and is never enforced takes some books over their cap.
  lemma {:induction false} UnenforcedRunsOver(acts: seq<Act>, w: Id) returns (b: Books)
    requires NonNegative(acts) && Unenforced(acts, w) > 0
    ensures CapHeld(b, w) && !CapHeld(RunAll(b, acts), w)
  {
    var k := UnnamedCampaign(acts);
    UnenforcedIsNonNegative(acts, w);
    b := Running(w, TotalAdded(acts, w), k + 1);
    StaysActive(b, acts, w, k);
    RunAdds(b, acts, w);
  }

  // Books whose cap is nothing and whose campaigns are all paused.
  function Spent(w: Id, n: nat): Books { Books([], map[w := Some(0.0)], seq(n, _ => Campaign(w, PAUSED)), []) }

  lemma {:induction false} LeftActiveIsActive(b: Books, acts: seq<Act>, w: Id, i: nat)
    requires i in LeftActive(acts, w) && i < |b.campaigns| && b.campaigns[i].workspace == w
    ensures i < |RunAll(b, acts).campaigns| && Active(RunAll(b, acts).campaigns[i], w)
  {
    var last := |acts| - 1;
    var mid := RunAll(b, acts[..last]);
    RunAdds(b, acts[..last], w);
    KeepsWorkspace(b, acts[..last], i);
    CampaignAfterExact(mid, acts[last], i);
    if i in LeftActive(acts[..last], w) {
      LeftActiveIsActive(b, acts[..last], w, i);
    }
  }

  lemma {:induction false} KeepsWorkspace(b: Books, acts: seq<Act>, i: nat)
    requires i < |b.campaigns|
    ensures i < |RunAll(b, acts).campaigns| && RunAll(b, acts).campaigns[i].workspace == b.campaigns[i].workspace
  {
    if acts != [] {
      var last := |acts| - 1;
      KeepsWorkspace(b, acts[..last], i);
      CampaignAfterExact(RunAll(b, acts[..last]), acts[last], i);
    }
  }

  // A campaign left active does so where the cap had been reached before.
  lemma {:induction false} LeftActiveRunsOver(acts: seq<Act>, w: Id, i: nat) returns (b: Books)
    requires NonNegative(acts) && i in LeftActive(acts, w)
    ensures CapHeld(b, w) && !CapHeld(RunAll(b, acts), w)
  {
    UnenforcedIsNonNegative(acts, w);
    b := Spent(w, i + 1);
    LeftActiveIsActive(b, acts, w, i);
    RunAdds(b, acts, w);
  }

  // Over runs, deaths between the two commits and the API's settings included: from whatever books, a
  // workspace that has reached its cap runs nothing afterwards exactly when everything it has used since
  // its last enforced usage was free and no campaign was left active since.
  lemma {:induction false} CapHeldExactly(acts: seq<Act>, w: Id)
    requires NonNegative(acts)
    ensures (forall b: Books :: CapHeld(b, w) ==> CapHeld(RunAll(b, acts), w))
       <==> Unenforced(acts, w) == 0 && LeftActive(acts, w) == {}
  {
    UnenforcedIsNonNegative(acts, w);
    if Unenforced(acts, w) > 0 {
      var b := UnenforcedRunsOver(acts, w);
    } else if LeftActive(acts, w) != {} {
      var i :| i in LeftActive(acts, w);
      var b := LeftActiveRunsOver(acts, w, i);
    } else {
      forall b: Books | CapHeld(b, w)
        ensures CapHeld(RunAll(b, acts), w)
      {
        RunsOnlyLeftActive(b, acts, w);
      }
    }
  }

  // An instance: a death between the commits of a usage that costs something leaves some campaigns running
  // over the cap, and the workspace's next usage that does not die stops them.
  lemma {:induction false} DeathLeavesCampaignsRunning(event: UsageEvent, exact: int, next: Act)
    requires event.costMicro > 0 && Enforces(next, event.workspace)
    ensures exists b: Books ::
              && CapHeld(b, event.workspace) && !CapHeld(RunAll(b, [Charge(event, exact, true)]), event.workspace)
              && CapHeld(AfterAct(RunAll(b, [Charge(event, exact, true)]), next), event.workspace)
  {
    var acts := [Charge(event, exact, true)];
    assert acts[..|acts| - 1] == [];
    assert Unenforced(acts, event.workspace) == event.costMicro;
    var b := UnenforcedRunsOver(acts, event.workspace);
    EnforcementHoldsCap(RunAll(b, acts), next, event.workspace);
  }

  // ----- What is compared with the cap -----

  // An event that record_usage makes, at the exact price of the usage.
  predicate IsMade(act: Act, t: UsageEventType, u: Usage) {
    act.Charge? && act.event == EventOf(act.event.workspace, t, u) && act.exact == ExactCost(u)
  }

  ghost predicate AllMade(acts: seq<Act>) {
    forall i | 0 <= i < |acts| && acts[i].Charge? :: exists t: UsageEventType, u: Usage :: IsMade(acts[i], t, u)
  }

  lemma {:induction false} MadeIsPriced(act: Act, t: UsageEventType, u: Usage)
    requires IsMade(act, t, u)
    ensures act.event.costMicro == Quantize(act.exact)
  {
  }

  // The exact costs of workspace w's usage in a run.
  function CostsOf(acts: seq<Act>, w: Id): seq<int> {
    if acts == [] then []
    else
      var last := acts[|acts| - 1];
      CostsOf(acts[..|acts| - 1], w) + if last.Charge? && last.event.workspace == w then [last.exact] else []
  }

  lemma {:induction false} TotalOneMore(costs: seq<int>, cost: int)
    ensures RecordedTotal(costs + [cost]) == RecordedTotal(costs) + Quantize(cost)
  {
    assert (costs + [cost])[..|costs|] == costs;
  }

  lemma {:induction false} AddedIsRecordedTotal(acts: seq<Act>, w: Id)
    requires AllMade(acts)
    ensures TotalAdded(acts, w) == RecordedTotal(CostsOf(acts, w))
  {
    if acts != [] {
      var last := |acts| - 1;
      AddedIsRecordedTotal(acts[..last], w);
      if acts[last].Charge? {
        var t, u :| IsMade(acts[last], t, u);
        MadeIsPriced(acts[last], t, u);
        TotalOneMore(CostsOf(acts[..last], w), acts[last].exact);
      }
      assert CostsOf(acts[..last], w) + [] == CostsOf(acts[..last], w);
    }
  }

  // The spend a cap is compared with is off from the exact price of the workspace's usage by at most
  // half a micro-dollar an event.
  lemma {:induction false} SpendDriftBounded(b: Books, acts: seq<Act>, w: Id)
    requires b.events == [] && AllMade(acts)
    ensures Abs(1000 * Spend(RunAll(b, acts).events, w) - ExactTotal(CostsOf(acts, w))) <= 500 * |CostsOf(acts, w)|
  {
    RunAdds(b, acts, w);
    AddedIsRecordedTotal(acts, w);
    TotalDriftBounded(CostsOf(acts, w));
  }

  // A campaign whose status nobody sets is at most paused, and only in a workspace that used something:
  // nothing else about it changes.
  lemma {:induction false} RunsOnlyPauseUsers(b: Books, acts: seq<Act>, i: nat)
    requires i < |b.campaigns| && forall j | 0 <= j < |acts| && acts[j].SetStatus? :: acts[j].campaign != i
    ensures var c, after := b.campaigns[i], RunAll(b, acts).campaigns;
            && i < |after|
            && (after[i] == c || (after[i] == c.(status := PAUSED) && IsActive(c.status)
                                  && exists j | 0 <= j < |acts| :: Enforces(acts[j], c.workspace)))
  {
    if acts != [] {
      var last := |acts| - 1;
      RunsOnlyPauseUsers(b, acts[..last], i);
      var c, mid := b.campaigns[i], RunAll(b, acts[..last]);
      CampaignAfterExact(mid, acts[last], i);
      if mid.campaigns[i] != c {
        var j :| 0 <= j < last && Enforces(acts[..last][j], c.workspace);
        assert Enforces(acts[j], c.workspace);
      } else if RunAll(b, acts).campaigns[i] != c {
        assert Enforces(acts[last], c.workspace);
      }
    }
  }
}
