/** The price of a booking (backend/utils/pricingEngine.js): the court's
    hourly rate times the duration, scaled by the applicable multiplier
    rules, plus fixed rule fees split into peak and weekend fees, plus
    equipment and coach fees. Money and hours are exact reals. */
module Pricing {
  import opened Common
  import opened Entities
  import opened Folds

  const MillisPerHour: real := 3600000.0

  /** `(new Date(endTime) - new Date(startTime)) / (1000 * 60 * 60)`. */
  function DurationHours(start: int, end: int): real
  {
    (end - start) as real / MillisPerHour
  }

  /** The court's hourly rate times the duration, before any rule. */
  function BaseRate(court: Court, duration: real): real
  {
    court.basePrice * duration
  }

  /** What a rule's conditions are compared with: the court's type, the
      booking's UTC calendar date, and its local weekday and hour. */
  datatype RuleContext = RuleContext(courtType: string, date: string, dayOfWeek: int, hour: int)

  function ContextFor(court: Court, start: int, env: Env): RuleContext
  {
    RuleContext(court.courtType, env.utcDate(start), env.localDay(start), env.localHour(start))
  }

  /** A rule applies iff each condition it has holds. */
  predicate Applies(rule: PricingRule, ctx: RuleContext)
  {
    var c := rule.condition;
    && (|c.courtTypes| > 0 ==> ctx.courtType in c.courtTypes)
    && (c.date != "" ==> c.date == ctx.date)
    && (|c.dayOfWeek| > 0 ==> ctx.dayOfWeek in c.dayOfWeek)
    && (c.startHour.Some? && c.endHour.Some? ==> c.startHour.value <= ctx.hour < c.endHour.value)
  }

  /** A fixed rule counts as a weekend fee when it targets Sunday or Saturday
      or a specific date; otherwise as a peak fee. */
  predicate IsWeekendRule(c: Condition)
  {
    0 in c.dayOfWeek || 6 in c.dayOfWeek || c.date != ""
  }

  /** `PricingRule.find({ isActive: true })`. */
  function ActiveRules(rules: seq<PricingRule>): seq<PricingRule>
  {
    if rules == [] then []
    else (if rules[0].isActive then [rules[0]] else []) + ActiveRules(rules[1..])
  }

  /** What one rule multiplies the base price by. */
  function Factor(rule: PricingRule, ctx: RuleContext): real
  {
    if rule.ruleType == Multiplier && Applies(rule, ctx) then rule.value else 1.0
  }

  /** What one rule adds to the peak fee. */
  function PeakTerm(rule: PricingRule, ctx: RuleContext): real
  {
    if rule.ruleType == Fixed && Applies(rule, ctx) && !IsWeekendRule(rule.condition) then rule.value else 0.0
  }

  /** What one rule adds to the weekend fee. */
  function WeekendTerm(rule: PricingRule, ctx: RuleContext): real
  {
    if rule.ruleType == Fixed && Applies(rule, ctx) && IsWeekendRule(rule.condition) then rule.value else 0.0
  }

  function PeakTermOf(ctx: RuleContext): PricingRule -> real
  {
    rule => PeakTerm(rule, ctx)
  }

  function WeekendTermOf(ctx: RuleContext): PricingRule -> real
  {
    rule => WeekendTerm(rule, ctx)
  }

  function FactorOf(ctx: RuleContext): PricingRule -> real
  {
    rule => Factor(rule, ctx)
  }

  /** The running base price after the loop has scaled `price` by the
      factors of the rules, in order. */
  function ApplyMultipliers(price: real, rules: seq<PricingRule>, ctx: RuleContext): real
  {
    if rules == [] then price
    else Mul(ApplyMultipliers(price, rules[..|rules| - 1], ctx), Factor(rules[|rules| - 1], ctx))
  }

  /** What `quantity` units of one piece of equipment cost. */
  function LineCharge(equip: Equipment, quantity: int): real
  {
    equip.perUnitFee * quantity as real
  }

  /** What the coach charges for the booking's duration. */
  function CoachCharge(coach: Coach, duration: real): real
  {
    coach.hourlyRate * duration
  }

  /** `perUnitFee * quantity` summed over the lines whose equipment exists. */
  function EquipmentFee(lines: seq<EquipmentLine>, stock: map<Id, Equipment>, env: Env): real
  {
    if lines == [] then 0.0
    else
      var line := lines[|lines| - 1];
      var key := env.castId(line.equipmentId);
      EquipmentFee(lines[..|lines| - 1], stock, env) +
        (if key in stock then LineCharge(stock[key], line.quantity) else 0.0)
  }

  /** `hourlyRate * duration` for a requested coach that exists, else 0. */
  function CoachFee(coachId: Option<Id>, coaches: map<Id, Coach>, duration: real, env: Env): real
  {
    if Truthy(coachId) && env.castId(coachId.value) in coaches
    then CoachCharge(coaches[env.castId(coachId.value)], duration)
    else 0.0
  }

  datatype PricingError = CourtNotFound

  /** The breakdown calculatePricing returns, or its error. */
  function PricingSpec(courtId: Id, start: int, end: int, lines: seq<EquipmentLine>, coachId: Option<Id>,
                       db: Catalog, env: Env): (r: Result<Breakdown, PricingError>)
    ensures r.Err? <==> env.castId(courtId) !in db.courts
    ensures r.Ok? ==> r.value.total == r.value.basePrice + r.value.peakFee + r.value.weekendFee
                                       + r.value.equipmentFee + r.value.coachFee
    ensures r.Ok? && r.value.coachFee != 0.0 ==> Truthy(coachId) && env.castId(coachId.value) in db.coaches
  {
    if env.castId(courtId) !in db.courts then Err(CourtNotFound)
    else
      var court := db.courts[env.castId(courtId)];
      var duration := DurationHours(start, end);
      var ctx := ContextFor(court, start, env);
      var active := ActiveRules(db.rules);
      var base := ApplyMultipliers(BaseRate(court, duration), active, ctx);
      var peak := SumOf(active, PeakTermOf(ctx));
      var weekend := SumOf(active, WeekendTermOf(ctx));
      var equipment := EquipmentFee(lines, db.equipment, env);
      var coach := CoachFee(coachId, db.coaches, duration, env);
      Ok(Breakdown(base, peak, weekend, equipment, coach, base + peak + weekend + equipment + coach))
  }

  /** The components of a successful breakdown, stated over the values
      calculatePricing computes on its way. */
  lemma PricingSpecComponents(courtId: Id, start: int, end: int, lines: seq<EquipmentLine>, coachId: Option<Id>,
                              db: Catalog, env: Env, court: Court, rate: real, duration: real,
                              ctx: RuleContext, active: seq<PricingRule>)
    requires env.castId(courtId) in db.courts && court == db.courts[env.castId(courtId)]
    requires duration == DurationHours(start, end) && rate == BaseRate(court, duration)
    requires ctx == ContextFor(court, start, env) && active == ActiveRules(db.rules)
    ensures PricingSpec(courtId, start, end, lines, coachId, db, env).Ok?
    ensures var b := PricingSpec(courtId, start, end, lines, coachId, db, env).value;
            && b.basePrice == ApplyMultipliers(rate, active, ctx)
            && b.peakFee == SumOf(active, PeakTermOf(ctx))
            && b.weekendFee == SumOf(active, WeekendTermOf(ctx))
            && b.equipmentFee == EquipmentFee(lines, db.equipment, env)
            && b.coachFee == CoachFee(coachId, db.coaches, duration, env)
  {
  }

  /** The rule loop of calculatePricing: each active rule whose conditions
      all hold either scales the running base price or adds its value to the
      peak or weekend fee. */
  method ApplyRules(rules: seq<PricingRule>, ctx: RuleContext, rate: real)
    returns (basePrice: real, peakFee: real, weekendFee: real)
    ensures basePrice == ApplyMultipliers(rate, rules, ctx)
    ensures peakFee == SumOf(rules, PeakTermOf(ctx))
    ensures weekendFee == SumOf(rules, WeekendTermOf(ctx))
  {
    basePrice, peakFee, weekendFee := rate, 0.0, 0.0;
    for i := 0 to |rules|
      invariant basePrice == ApplyMultipliers(rate, rules[..i], ctx)
      invariant peakFee == SumOf(rules[..i], PeakTermOf(ctx))
      invariant weekendFee == SumOf(rules[..i], WeekendTermOf(ctx))
    {
      var rule := rules[i];
      assert rules[..i + 1][..i] == rules[..i];
      var applies := true;
      if |rule.condition.courtTypes| > 0 {
        applies := applies && ctx.courtType in rule.condition.courtTypes;
      }
      if rule.condition.date != "" {
        applies := applies && rule.condition.date == ctx.date;
      }
      if |rule.condition.dayOfWeek| > 0 {
        applies := applies && ctx.dayOfWeek in rule.condition.dayOfWeek;
      }
      if rule.condition.startHour.Some? && rule.condition.endHour.Some? {
        var hourMatches := ctx.hour >= rule.condition.startHour.value && ctx.hour < rule.condition.endHour.value;
        applies := applies && hourMatches;
      }
      assert applies == Applies(rule, ctx);

      if !applies {
        continue;
      }
      match rule.ruleType
      case Multiplier =>
        basePrice := basePrice * rule.value;
      case Fixed =>
        var isWeekend := 0 in rule.condition.dayOfWeek || 6 in rule.condition.dayOfWeek || rule.condition.date != "";
        if isWeekend {
          weekendFee := weekendFee + rule.value;
        } else {
          peakFee := peakFee + rule.value;
        }
    }
    assert rules[..|rules|] == rules;
  }

  /** The equipment loop of calculatePricing: lines whose equipment exists
      add `perUnitFee * quantity`. */
  method SumEquipmentFees(equipment: seq<EquipmentLine>, stock: map<Id, Equipment>, env: Env) returns (fee: real)
    ensures fee == EquipmentFee(equipment, stock, env)
  {
    fee := 0.0;
    for i := 0 to |equipment|
      invariant fee == EquipmentFee(equipment[..i], stock, env)
    {
      var item := equipment[i];
      assert equipment[..i + 1][..i] == equipment[..i];
      var key := env.castId(item.equipmentId);
      if key in stock {
        var equip := stock[key];
        fee := fee + equip.perUnitFee * item.quantity as real;
        assert fee == EquipmentFee(equipment[..i], stock, env) + LineCharge(equip, item.quantity);
      }
    }
    assert equipment[..|equipment|] == equipment;
  }

  /** calculatePricing: the breakdown starts at rate times duration with
      zero fees, is updated by the rule loop, the equipment loop and the
      coach fee, and its total is the sum of the five components. */
  method CalculatePricing(courtId: Id, start: int, end: int, equipment: seq<EquipmentLine>, coachId: Option<Id>,
                          db: Catalog, env: Env) returns (r: Result<Breakdown, PricingError>)
    ensures r == PricingSpec(courtId, start, end, equipment, coachId, db, env)
  {
    var courtKey := env.castId(courtId);
    if courtKey !in db.courts {
      return Err(CourtNotFound);
    }
    var court := db.courts[courtKey];
    var basePrice := court.basePrice;
    var duration := DurationHours(start, end);
    basePrice := basePrice * duration;
    assert basePrice == BaseRate(court, duration);
    var breakdown := Breakdown(basePrice, 0.0, 0.0, 0.0, 0.0, basePrice);

    var ctx := ContextFor(court, start, env);
    var rules := ActiveRules(db.rules);
    var price, peakFee, weekendFee := ApplyRules(rules, ctx, basePrice);
    breakdown := breakdown.(basePrice := price, peakFee := peakFee, weekendFee := weekendFee);

    if |equipment| > 0 {
      var fee := SumEquipmentFees(equipment, db.equipment, env);
      breakdown := breakdown.(equipmentFee := fee);
    }

    if Truthy(coachId) {
      var coachKey := env.castId(coachId.value);
      if coachKey in db.coaches {
        var coach := db.coaches[coachKey];
        breakdown := breakdown.(coachFee := coach.hourlyRate * duration);
        assert breakdown.coachFee == CoachCharge(coach, duration);
      }
    }

    breakdown := breakdown.(total := breakdown.basePrice + breakdown.peakFee + breakdown.weekendFee
                                     + breakdown.equipmentFee + breakdown.coachFee);
    PricingSpecComponents(courtId, start, end, equipment, coachId, db, env, court, BaseRate(court, duration),
                          duration, ctx, rules);
    return Ok(breakdown);
  }

  // ---------------------------------------------------------------------
  // Properties of the breakdown
  // ---------------------------------------------------------------------

  lemma {:induction false} ApplyMultipliersIsProduct(price: real, rules: seq<PricingRule>, ctx: RuleContext)
    ensures ApplyMultipliers(price, rules, ctx) == Mul(price, Product(rules, FactorOf(ctx)))
  {
    if rules != [] {
      var rest := rules[..|rules| - 1];
      ApplyMultipliersIsProduct(price, rest, ctx);
      Reassociate(price, Product(rest, FactorOf(ctx)), Factor(rules[|rules| - 1], ctx));
    }
  }

  /** The final base price is the court's rate times the duration times the
      product of the factors of the active rules, where a rule that is not an
      applied multiplier has factor 1. */
  lemma BasePriceIsProduct(courtId: Id, start: int, end: int, lines: seq<EquipmentLine>, coachId: Option<Id>,
                           db: Catalog, env: Env)
    requires env.castId(courtId) in db.courts
    ensures PricingSpec(courtId, start, end, lines, coachId, db, env).Ok?
    ensures PricingSpec(courtId, start, end, lines, coachId, db, env).value.basePrice
            == Mul(db.courts[env.castId(courtId)].basePrice * DurationHours(start, end),
                   Product(ActiveRules(db.rules), FactorOf(ContextFor(db.courts[env.castId(courtId)], start, env))))
  {
    var ctx := ContextFor(db.courts[env.castId(courtId)], start, env);
    ApplyMultipliersIsProduct(BaseRate(db.courts[env.castId(courtId)], DurationHours(start, end)), ActiveRules(db.rules), ctx);
  }

  /** The breakdown depends only on which rules are active, not on the order
      in which the rule query returns them. */
  lemma PricingIgnoresRuleOrder(courtId: Id, start: int, end: int, lines: seq<EquipmentLine>, coachId: Option<Id>,
                                db: Catalog, rules: seq<PricingRule>, env: Env)
    requires multiset(ActiveRules(db.rules)) == multiset(ActiveRules(rules))
    ensures PricingSpec(courtId, start, end, lines, coachId, db, env)
            == PricingSpec(courtId, start, end, lines, coachId, db.(rules := rules), env)
  {
    if env.castId(courtId) in db.courts {
      var court := db.courts[env.castId(courtId)];
      var duration := DurationHours(start, end);
      var ctx := ContextFor(court, start, env);
      RulesInAnyOrder(ActiveRules(db.rules), ActiveRules(rules), ctx, BaseRate(court, duration));
      PricingSpecComponents(courtId, start, end, lines, coachId, db, env, court, BaseRate(court, duration),
                            duration, ctx, ActiveRules(db.rules));
      PricingSpecComponents(courtId, start, end, lines, coachId, db.(rules := rules), env, court,
                            BaseRate(court, duration), duration, ctx, ActiveRules(rules));
      var x := PricingSpec(courtId, start, end, lines, coachId, db, env).value;
      var y := PricingSpec(courtId, start, end, lines, coachId, db.(rules := rules), env).value;
      assert x.basePrice == y.basePrice && x.peakFee == y.peakFee && x.weekendFee == y.weekendFee;
      assert x.equipmentFee == y.equipmentFee && x.coachFee == y.coachFee;
      assert x.total == y.total;
      assert x == y;
    }
  }

  /** The rule loop's three results depend only on the multiset of rules. */
  lemma RulesInAnyOrder(a: seq<PricingRule>, b: seq<PricingRule>, ctx: RuleContext, rate: real)
    requires multiset(a) == multiset(b)
    ensures ApplyMultipliers(rate, a, ctx) == ApplyMultipliers(rate, b, ctx)
    ensures SumOf(a, PeakTermOf(ctx)) == SumOf(b, PeakTermOf(ctx))
    ensures SumOf(a, WeekendTermOf(ctx)) == SumOf(b, WeekendTermOf(ctx))
  {
    ProductPermutation(a, b, FactorOf(ctx));
    ApplyMultipliersIsProduct(rate, a, ctx);
    ApplyMultipliersIsProduct(rate, b, ctx);
    SumOfPermutation(a, b, PeakTermOf(ctx));
    SumOfPermutation(a, b, WeekendTermOf(ctx));
  }

  lemma {:induction false} ActiveRulesConcat(a: seq<PricingRule>, b: seq<PricingRule>)
    ensures ActiveRules(a + b) == ActiveRules(a) + ActiveRules(b)
  {
    if a == [] {
      assert a + b == b;
    } else {
      assert (a + b)[0] == a[0];
      assert (a + b)[1..] == a[1..] + b;
      ActiveRulesConcat(a[1..], b);
    }
  }

  /** An inactive rule, wherever it stands, never changes the breakdown. */
  lemma InactiveRuleIgnored(courtId: Id, start: int, end: int, lines: seq<EquipmentLine>, coachId: Option<Id>,
                            db: Catalog, before: seq<PricingRule>, rule: PricingRule, after: seq<PricingRule>, env: Env)
    requires !rule.isActive
    ensures PricingSpec(courtId, start, end, lines, coachId, db.(rules := before + [rule] + after), env)
            == PricingSpec(courtId, start, end, lines, coachId, db.(rules := before + after), env)
  {
    ActiveRulesConcat(before + [rule], after);
    ActiveRulesConcat(before, [rule]);
    ActiveRulesConcat(before, after);
    assert [rule][1..] == [];
    assert ActiveRules([rule]) == [];
    assert ActiveRules(before + [rule] + after) == ActiveRules(before + after);
  }

  lemma {:induction false} NoRuleAppliesProduct(rules: seq<PricingRule>, ctx: RuleContext)
    requires forall i :: 0 <= i < |rules| ==> !Applies(rules[i], ctx)
    ensures forall price :: ApplyMultipliers(price, rules, ctx) == price
    ensures SumOf(rules, PeakTermOf(ctx)) == 0.0 && SumOf(rules, WeekendTermOf(ctx)) == 0.0
  {
    if rules != [] {
      NoRuleAppliesProduct(rules[..|rules| - 1], ctx);
    }
  }

  /** `find({ isActive: true })` returns exactly the active rules, each as
      often as it is stored. */
  lemma {:induction false} ActiveRulesSelects(rules: seq<PricingRule>)
    ensures forall r :: r in ActiveRules(rules) <==> r in rules && r.isActive
    ensures forall r :: multiset(ActiveRules(rules))[r] == if r.isActive then multiset(rules)[r] else 0
  {
    if rules != [] {
      ActiveRulesSelects(rules[1..]);
      assert rules == [rules[0]] + rules[1..];
    }
  }

  /** When no active rule applies, the base price is rate times duration and
      the peak and weekend fees are zero. */
  lemma NoApplicableRule(courtId: Id, start: int, end: int, lines: seq<EquipmentLine>, coachId: Option<Id>,
                         db: Catalog, env: Env)
    requires env.castId(courtId) in db.courts
    requires forall i :: 0 <= i < |db.rules| && db.rules[i].isActive ==>
               !Applies(db.rules[i], ContextFor(db.courts[env.castId(courtId)], start, env))
    ensures PricingSpec(courtId, start, end, lines, coachId, db, env).Ok?
    ensures var b := PricingSpec(courtId, start, end, lines, coachId, db, env).value;
            && b.basePrice == BaseRate(db.courts[env.castId(courtId)], DurationHours(start, end))
            && b.peakFee == 0.0 && b.weekendFee == 0.0
  {
    var ctx := ContextFor(db.courts[env.castId(courtId)], start, env);
    var active := ActiveRules(db.rules);
    ActiveRulesSelects(db.rules);
    forall i | 0 <= i < |active| ensures !Applies(active[i], ctx) {
      assert active[i] in db.rules;
    }
    NoRuleAppliesProduct(active, ctx);
  }

  /** An applied fixed rule adds its value to exactly one of the two fees,
      the weekend fee iff it targets day 0 or 6 or a date; a multiplier rule
      adds to neither and a fixed rule never scales the base price. */
  lemma RuleClassification(rule: PricingRule, ctx: RuleContext)
    ensures rule.ruleType == Multiplier ==> PeakTerm(rule, ctx) == 0.0 && WeekendTerm(rule, ctx) == 0.0
    ensures rule.ruleType == Fixed ==> Factor(rule, ctx) == 1.0
    ensures rule.ruleType == Fixed && Applies(rule, ctx) ==>
              && WeekendTerm(rule, ctx) == (if IsWeekendRule(rule.condition) then rule.value else 0.0)
              && PeakTerm(rule, ctx) == (if IsWeekendRule(rule.condition) then 0.0 else rule.value)
    ensures !Applies(rule, ctx) ==> PeakTerm(rule, ctx) == 0.0 && WeekendTerm(rule, ctx) == 0.0
  {
  }

  /** Lines for unknown equipment cost nothing. */
  lemma {:induction false} UnknownEquipmentIsFree(lines: seq<EquipmentLine>, stock: map<Id, Equipment>, env: Env)
    requires forall i :: 0 <= i < |lines| ==> env.castId(lines[i].equipmentId) !in stock
    ensures EquipmentFee(lines, stock, env) == 0.0
  {
    if lines != [] {
      UnknownEquipmentIsFree(lines[..|lines| - 1], stock, env);
    }
  }
}
