/** Administration of pricing rules
    (backend/controllers/pricingRuleController.js): the date-shape check,
    and create, update and delete over the rule table, which keep at most one
    rule per holiday date. */
module PricingRules {
  import opened Common
  import opened Entities

  // ---------------------------------------------------------------------
  // isValidDateString: /^\d{4}-\d{2}-\d{2}$/
  // ---------------------------------------------------------------------

  /** One position of the pattern: `\d` or a literal character. */
  datatype PatternChar = Digit | Literal(c: char)

  predicate IsDigit(c: char)
  {
    '0' <= c <= '9'
  }

  /** An anchored pattern without repetition matches `s` iff they have the
      same length and each character matches its position. */
  function MatchesAll(pattern: seq<PatternChar>, s: string): (r: bool)
    ensures r <==> |pattern| == |s| &&
                   forall i :: 0 <= i < |s| ==>
                     match pattern[i]
                     case Digit => IsDigit(s[i])
                     case Literal(c) => s[i] == c
  {
    if pattern == [] || s == [] then pattern == [] && s == []
    else
      var head := match pattern[0] case Digit => IsDigit(s[0]) case Literal(c) => s[0] == c;
      var rest := MatchesAll(pattern[1..], s[1..]);
      assert forall i :: 0 < i < |s| ==> s[i] == s[1..][i - 1];
      assert forall i :: 0 < i < |pattern| ==> pattern[i] == pattern[1..][i - 1];
      head && rest
  }

  /** `\d{4}-\d{2}-\d{2}`. */
  const DatePattern: seq<PatternChar> :=
    [Digit, Digit, Digit, Digit, Literal('-'), Digit, Digit, Literal('-'), Digit, Digit]

  /** isValidDateString. */
  function IsValidDateString(s: string): (r: bool)
  {
    MatchesAll(DatePattern, s)
  }

  /** The accepted strings are exactly four digits, '-', two digits, '-',
      two digits. */
  lemma DateStringShape(s: string)
    ensures IsValidDateString(s) <==>
              && |s| == 10 && s[4] == '-' && s[7] == '-'
              && forall i :: 0 <= i < 10 && i != 4 && i != 7 ==> IsDigit(s[i])
  {
    if |s| == 10 {
      assert forall i :: 0 <= i < 10 && i != 4 && i != 7 ==> DatePattern[i] == Digit;
    }
  }

  /** The check is on the shape only: a month 13 or a day 30 of February
      passes. */
  lemma NoCalendarCheck()
    ensures IsValidDateString("2024-02-30")
    ensures IsValidDateString("2024-13-45")
    ensures !IsValidDateString("2024-2-03")
  {
    DigitsAndDashes("2024-02-30");
    DigitsAndDashes("2024-13-45");
    DateStringShape("2024-2-03");
  }

  /** A ten-character string with digits everywhere but positions 4 and 7,
      and dashes there, passes. */
  lemma DigitsAndDashes(s: string)
    requires |s| == 10 && s[4] == '-' && s[7] == '-'
    requires IsDigit(s[0]) && IsDigit(s[1]) && IsDigit(s[2]) && IsDigit(s[3])
    requires IsDigit(s[5]) && IsDigit(s[6]) && IsDigit(s[8]) && IsDigit(s[9])
    ensures IsValidDateString(s)
  {
    DateStringShape(s);
  }

  // ---------------------------------------------------------------------
  // Requests and responses
  // ---------------------------------------------------------------------

  /** `req.body` of create and update; a field not sent is None. */
  datatype RuleInput = RuleInput(
    name: Option<string>,
    ruleType: Option<string>,
    condition: Option<Condition>,
    value: Option<real>,
    isActive: Option<bool>)

  /** The body `{}`. */
  const EmptyInput := RuleInput(None, None, None, None, None)

  datatype RuleError =
    | InvalidRuleId
    | InvalidDateFormat
    | DuplicateDate
    | RuleNotFound
    | ValidationFailed
    | ServerError
  {
    function Status(): int
    {
      match this
      case RuleNotFound => 404
      case ServerError => 500
      case _ => 400
    }
  }

  /** The schema's enum `['fixed', 'multiplier']`. */
  function ParseRuleType(s: string): Option<RuleType>
  {
    if s == "fixed" then Some(Fixed)
    else if s == "multiplier" then Some(Multiplier)
    else None
  }

  /** Whether the request's condition carries a date of the wrong shape. */
  predicate BadDate(condition: Option<Condition>)
  {
    condition.Some? && condition.value.date != "" && !IsValidDateString(condition.value.date)
  }

  // ---------------------------------------------------------------------
  // Queries over the rule table
  // ---------------------------------------------------------------------

  /** `PricingRule.findOne({ _id: { $ne: exclude }, 'condition.date': date })`;
      with no id to exclude, any rule with the date. */
  function FindByDate(rules: seq<PricingRule>, date: string, exclude: Option<Id>): (r: Option<PricingRule>)
    ensures r.None? <==> forall i :: 0 <= i < |rules| ==>
                           rules[i].condition.date != date || (exclude.Some? && rules[i].id == exclude.value)
    ensures r.Some? ==> r.value in rules && r.value.condition.date == date &&
                        (exclude.Some? ==> r.value.id != exclude.value)
  {
    if rules == [] then None
    else if rules[0].condition.date == date && (exclude.None? || rules[0].id != exclude.value) then Some(rules[0])
    else
      assert forall k :: 0 < k < |rules| ==> rules[k] == rules[1..][k - 1];
      FindByDate(rules[1..], date, exclude)
  }

  predicate UniqueIds(rules: seq<PricingRule>)
  {
    forall i, j :: 0 <= i < j < |rules| ==> rules[i].id != rules[j].id
  }

  /** At most one rule per holiday date. */
  predicate UniqueHolidayDates(rules: seq<PricingRule>)
  {
    forall i, j :: 0 <= i < j < |rules| && rules[i].condition.date != "" ==>
                   rules[i].condition.date != rules[j].condition.date
  }

  // ---------------------------------------------------------------------
  // createPricingRule
  // ---------------------------------------------------------------------

  /** createPricingRule: the new rule, or the error. A date of the wrong
      shape is refused before a date already used by any rule, active or
      not; the schema's checks (a non-empty name, a known type, a value)
      come last. */
  function CreateRuleSpec(rules: seq<PricingRule>, input: RuleInput, newId: Id): (r: Result<PricingRule, RuleError>)
    ensures r.Ok? ==>
      && r.value.id == newId
      && Some(r.value.name) == input.name && r.value.name != ""
      && input.ruleType.Some? && ParseRuleType(input.ruleType.value) == Some(r.value.ruleType)
      && Some(r.value.value) == input.value
      && r.value.condition == input.condition.GetOr(NoCondition)
      && r.value.isActive == input.isActive.GetOr(true)
      && (r.value.condition.date == "" || IsValidDateString(r.value.condition.date))
  {
    var condition := input.condition.GetOr(NoCondition);
    if condition.date != "" && !IsValidDateString(condition.date) then Err(InvalidDateFormat)
    else if condition.date != "" && FindByDate(rules, condition.date, None).Some? then Err(DuplicateDate)
    else if !Truthy(input.name) || input.ruleType.None? || ParseRuleType(input.ruleType.value).None?
            || input.value.None? then Err(ValidationFailed)
    else
      Ok(PricingRule(newId, input.name.value, ParseRuleType(input.ruleType.value).value, condition,
                     input.value.value, if input.isActive.Some? then input.isActive.value else true))
  }

  /** A date of the wrong shape is refused with a 400, before the duplicate
      check and the schema's checks. */
  lemma CreateRejectsBadDate(rules: seq<PricingRule>, input: RuleInput, newId: Id)
    requires BadDate(input.condition)
    ensures CreateRuleSpec(rules, input, newId) == Err(InvalidDateFormat)
    ensures CreateRuleSpec(rules, input, newId).error.Status() == 400
  {
  }

  /** A create never gives a second rule the same holiday date. */
  lemma CreatePreservesUniqueDates(rules: seq<PricingRule>, input: RuleInput, newId: Id)
    requires UniqueHolidayDates(rules)
    requires CreateRuleSpec(rules, input, newId).Ok?
    ensures UniqueHolidayDates(rules + [CreateRuleSpec(rules, input, newId).value])
  {
    var rule := CreateRuleSpec(rules, input, newId).value;
    var all := rules + [rule];
    forall i, j | 0 <= i < j < |all| && all[i].condition.date != ""
      ensures all[i].condition.date != all[j].condition.date
    {
      assert all[i] == rules[i];
      if j == |rules| {
        assert all[j] == rule;
      } else {
        assert all[j] == rules[j];
      }
    }
  }

  /** A date already used by a rule, active or not, is refused. */
  lemma CreateRejectsTakenDate(rules: seq<PricingRule>, input: RuleInput, newId: Id, k: nat)
    requires input.condition.Some? && input.condition.value.date != ""
    requires IsValidDateString(input.condition.value.date)
    requires k < |rules| && rules[k].condition.date == input.condition.value.date
    ensures CreateRuleSpec(rules, input, newId) == Err(DuplicateDate)
  {
  }

  // ---------------------------------------------------------------------
  // updatePricingRule
  // ---------------------------------------------------------------------

  /** The fields of `rule` after the update's assignments: name and type
      only when truthy, the condition whole when present, value and
      isActive when not undefined. A truthy type outside the enum is
      refused at save, so it never reaches a stored rule. */
  function Merge(rule: PricingRule, input: RuleInput): PricingRule
  {
    var name := if Truthy(input.name) then input.name.value else rule.name;
    var ruleType := if Truthy(input.ruleType) && ParseRuleType(input.ruleType.value).Some?
                    then ParseRuleType(input.ruleType.value).value else rule.ruleType;
    var condition := if input.condition.Some? then input.condition.value else rule.condition;
    var value := if input.value.Some? then input.value.value else rule.value;
    var isActive := if input.isActive.Some? then input.isActive.value else rule.isActive;
    PricingRule(rule.id, name, ruleType, condition, value, isActive)
  }

  /** An empty body leaves the rule as it was. */
  lemma MergeEmptyIsIdentity(rule: PricingRule)
    ensures Merge(rule, EmptyInput) == rule
  {
  }

  /** Applying the same body twice is applying it once. */
  lemma MergeIdempotent(rule: PricingRule, input: RuleInput)
    ensures Merge(Merge(rule, input), input) == Merge(rule, input)
  {
  }

  /** A truthy type the schema does not know. */
  predicate BadType(input: RuleInput)
  {
    Truthy(input.ruleType) && ParseRuleType(input.ruleType.value).None?
  }

  /** updatePricingRule: the table after the update, or the error. A
      malformed id, then a date of the wrong shape in the body, then a
      missing rule; then the merged rule's date must not be used by any
      other rule; an unknown type fails at save and the catch-all answers
      500. */
  function UpdateRuleSpec(rules: seq<PricingRule>, id: Id, input: RuleInput, env: Env): Result<seq<PricingRule>, RuleError>
  {
    if !env.validId(id) then Err(InvalidRuleId)
    else if BadDate(input.condition) then Err(InvalidDateFormat)
    else
      match FindById(rules, RuleId, env.castId(id))
      case None => Err(RuleNotFound)
      case Some(i) =>
        var merged := Merge(rules[i], input);
        if merged.condition.date != "" && FindByDate(rules, merged.condition.date, Some(merged.id)).Some?
        then Err(DuplicateDate)
        else if BadType(input) then Err(ServerError)
        else Ok(rules[i := merged])
  }

  /** The order of the update's refusals: a malformed id before a badly
      shaped date, and a badly shaped date before a missing rule; a 500 only
      for a type the schema does not know. */
  lemma UpdateErrorOrder(rules: seq<PricingRule>, id: Id, input: RuleInput, env: Env)
    ensures !env.validId(id) ==> UpdateRuleSpec(rules, id, input, env) == Err(InvalidRuleId)
    ensures env.validId(id) && BadDate(input.condition) ==>
              UpdateRuleSpec(rules, id, input, env) == Err(InvalidDateFormat)
    ensures env.validId(id) && !BadDate(input.condition) &&
            (forall i :: 0 <= i < |rules| ==> rules[i].id != env.castId(id)) ==>
              UpdateRuleSpec(rules, id, input, env) == Err(RuleNotFound)
    ensures UpdateRuleSpec(rules, id, input, env) == Err(ServerError) ==> BadType(input)
  {
  }

  /** An update changes only the rule with the id: its name and type only
      when the body's are truthy (and the type is known), its condition
      wholesale when one is sent, its value and isActive when sent; its id
      never. Every other rule is kept. */
  lemma UpdateChangesOneRule(rules: seq<PricingRule>, id: Id, input: RuleInput, env: Env)
    requires UniqueIds(rules)
    requires UpdateRuleSpec(rules, id, input, env).Ok?
    ensures var after := UpdateRuleSpec(rules, id, input, env).value;
            && |after| == |rules|
            && (forall k :: 0 <= k < |rules| && rules[k].id != env.castId(id) ==> after[k] == rules[k])
            && forall k :: 0 <= k < |rules| && rules[k].id == env.castId(id) ==>
                 && after[k].id == env.castId(id)
                 && after[k].name == (if Truthy(input.name) then input.name.value else rules[k].name)
                 && after[k].ruleType == (if input.ruleType.Some? && input.ruleType.value == "fixed" then Fixed
                                          else if input.ruleType.Some? && input.ruleType.value == "multiplier"
                                          then Multiplier else rules[k].ruleType)
                 && after[k].condition == input.condition.GetOr(rules[k].condition)
                 && after[k].value == input.value.GetOr(rules[k].value)
                 && after[k].isActive == input.isActive.GetOr(rules[k].isActive)
  {
  }

  /** An update never gives two rules the same holiday date, and keeps the
      ids unique. */
  lemma UpdatePreservesInvariant(rules: seq<PricingRule>, id: Id, input: RuleInput, env: Env)
    requires UniqueIds(rules) && UniqueHolidayDates(rules)
    requires UpdateRuleSpec(rules, id, input, env).Ok?
    ensures UniqueIds(UpdateRuleSpec(rules, id, input, env).value)
    ensures UniqueHolidayDates(UpdateRuleSpec(rules, id, input, env).value)
  {
    var i := FindById(rules, RuleId, env.castId(id)).value;
    var merged := Merge(rules[i], input);
    var after := rules[i := merged];
    forall a, b | 0 <= a < b < |after| && after[a].condition.date != ""
      ensures after[a].condition.date != after[b].condition.date
    {
      if a == i {
        assert rules[b].id != merged.id;
      } else if b == i {
        assert rules[a].id != merged.id;
      }
    }
  }

  /** An update collides exactly when the merged rule's date is held by
      another rule; the rule's own date never counts against it, whatever
      else the body changes. */
  lemma UpdateCollidesIff(rules: seq<PricingRule>, id: Id, input: RuleInput, env: Env, k: nat)
    requires UniqueIds(rules)
    requires env.validId(id) && !BadDate(input.condition)
    requires k < |rules| && rules[k].id == env.castId(id)
    ensures UpdateRuleSpec(rules, id, input, env) == Err(DuplicateDate) <==>
              Merge(rules[k], input).condition.date != "" &&
              exists j :: 0 <= j < |rules| && j != k && rules[j].condition.date == Merge(rules[k], input).condition.date
  {
    var i := FindById(rules, RuleId, env.castId(id)).value;
    assert RuleId(rules[k]) == env.castId(id);
    assert i == k;
    var merged := Merge(rules[k], input);
    var date := merged.condition.date;
    assert merged.id == rules[k].id;
    if date != "" {
      if FindByDate(rules, date, Some(merged.id)).Some? {
        var j :| 0 <= j < |rules| && rules[j].condition.date == date && rules[j].id != merged.id;
        assert j != k;
      } else {
        forall j | 0 <= j < |rules| && j != k
          ensures rules[j].condition.date != date
        {
          assert rules[j].id != rules[k].id;
        }
      }
    }
  }


  /** Re-sending a rule's own date never collides with the rule itself. */
  lemma UpdateWithOwnDate(rules: seq<PricingRule>, id: Id, env: Env, k: nat)
    requires UniqueIds(rules) && UniqueHolidayDates(rules)
    requires env.validId(id) && k < |rules| && rules[k].id == env.castId(id)
    requires !BadDate(Some(rules[k].condition))
    ensures UpdateRuleSpec(rules, id, RuleInput(None, None, Some(rules[k].condition), None, None), env)
            == Ok(rules)
  {
    var input := RuleInput(None, None, Some(rules[k].condition), None, None);
    var i := FindById(rules, RuleId, env.castId(id)).value;
    assert i == k;
    assert Merge(rules[k], input) == rules[k];
    var date := rules[k].condition.date;
    if date != "" {
      forall j | 0 <= j < |rules| && rules[j].condition.date == date ensures rules[j].id == env.castId(id) {
        if j < k {
          assert false;
        } else if j > k {
          assert false;
        }
      }
    }
    assert rules[k := rules[k]] == rules;
  }

  /** The assignments of updatePricingRule, one field at a time, on the
      loaded rule; `badType` records a type the save will refuse. */
  method AssignFields(loaded: PricingRule, input: RuleInput) returns (rule: PricingRule, badType: bool)
    ensures rule == Merge(loaded, input)
    ensures badType == BadType(input)
  {
    rule := loaded;
    if Truthy(input.name) {
      rule := rule.(name := input.name.value);
    }
    badType := false;
    if Truthy(input.ruleType) {
      var parsed := ParseRuleType(input.ruleType.value);
      if parsed.Some? {
        rule := rule.(ruleType := parsed.value);
      } else {
        badType := true;
      }
    }
    if input.condition.Some? {
      rule := rule.(condition := input.condition.value);
    }
    if input.value.Some? {
      rule := rule.(value := input.value.value);
    }
    if input.isActive.Some? {
      rule := rule.(isActive := input.isActive.value);
    }
  }

  // ---------------------------------------------------------------------
  // deletePricingRule
  // ---------------------------------------------------------------------

  /** deletePricingRule: the table without the rule, or the error. */
  function DeleteRuleSpec(rules: seq<PricingRule>, id: Id, env: Env): Result<seq<PricingRule>, RuleError>
  {
    if !env.validId(id) then Err(InvalidRuleId)
    else
      match FindById(rules, RuleId, env.castId(id))
      case None => Err(RuleNotFound)
      case Some(i) => Ok(rules[..i] + rules[i + 1..])
  }

  /** The three responses of delete; a delete removes exactly the one rule
      with the id and keeps the others in order. */
  lemma DeleteResponses(rules: seq<PricingRule>, id: Id, env: Env)
    requires UniqueIds(rules)
    ensures DeleteRuleSpec(rules, id, env) == Err(InvalidRuleId) <==> !env.validId(id)
    ensures DeleteRuleSpec(rules, id, env) == Err(RuleNotFound) <==>
              env.validId(id) && forall i :: 0 <= i < |rules| ==> rules[i].id != env.castId(id)
    ensures DeleteRuleSpec(rules, id, env).Ok? ==>
              var after := DeleteRuleSpec(rules, id, env).value;
              && |after| == |rules| - 1
              && multiset(after) + multiset{rules[FindById(rules, RuleId, env.castId(id)).value]} == multiset(rules)
              && forall k :: 0 <= k < |after| ==> after[k].id != env.castId(id)
  {
    if env.validId(id) && FindById(rules, RuleId, env.castId(id)).Some? {
      var i := FindById(rules, RuleId, env.castId(id)).value;
      assert rules == rules[..i] + [rules[i]] + rules[i + 1..];
      var after := rules[..i] + rules[i + 1..];
      forall k | 0 <= k < |after| ensures after[k].id != env.castId(id) {
        if k < i {
          assert after[k] == rules[k];
        } else {
          assert after[k] == rules[k + 1];
        }
      }
    }
  }

  /** Removing a rule keeps the ids and the holiday dates unique. */
  lemma DeletePreservesInvariant(rules: seq<PricingRule>, id: Id, env: Env)
    requires UniqueIds(rules) && UniqueHolidayDates(rules)
    requires DeleteRuleSpec(rules, id, env).Ok?
    ensures UniqueIds(DeleteRuleSpec(rules, id, env).value)
    ensures UniqueHolidayDates(DeleteRuleSpec(rules, id, env).value)
  {
    var i := FindById(rules, RuleId, env.castId(id)).value;
    var after := rules[..i] + rules[i + 1..];
    assert forall k :: 0 <= k < |after| ==> after[k] == if k < i then rules[k] else rules[k + 1];
  }

  // ---------------------------------------------------------------------
  // The rule table
  // ---------------------------------------------------------------------

  /** The pricingrules collection. */
  class RuleTable {
    var rules: seq<PricingRule>

    ghost predicate Valid()
      reads this
    {
      UniqueIds(rules) && UniqueHolidayDates(rules)
    }

    constructor()
      ensures Valid() && rules == []
    {
      rules := [];
    }

    /** createPricingRule. `newId` is the id the database gives the new
        document, distinct from every stored id. */
    method CreateRule(input: RuleInput, newId: Id) returns (r: Result<PricingRule, RuleError>)
      requires Valid()
      requires forall i :: 0 <= i < |rules| ==> rules[i].id != newId
      modifies this
      ensures Valid()
      ensures r == CreateRuleSpec(old(rules), input, newId)
      ensures rules == if r.Ok? then old(rules) + [r.value] else old(rules)
    {
      if input.condition.Some? && input.condition.value.date != "" &&
         !IsValidDateString(input.condition.value.date) {
        return Err(InvalidDateFormat);
      }
      if input.condition.Some? && input.condition.value.date != "" {
        var existing := FindByDate(rules, input.condition.value.date, None);
        if existing.Some? {
          return Err(DuplicateDate);
        }
      }
      if !Truthy(input.name) || input.ruleType.None? || ParseRuleType(input.ruleType.value).None? ||
         input.value.None? {
        return Err(ValidationFailed);
      }
      var rule := PricingRule(newId, input.name.value, ParseRuleType(input.ruleType.value).value,
                              input.condition.GetOr(NoCondition), input.value.value,
                              if input.isActive.Some? then input.isActive.value else true);
      CreatePreservesUniqueDates(rules, input, newId);
      rules := rules + [rule];
      return Ok(rule);
    }

    /** updatePricingRule: the loaded rule's fields are assigned one by
        one, then the rule is saved in place. */
    method UpdateRule(id: Id, input: RuleInput, env: Env) returns (r: Result<PricingRule, RuleError>)
      requires Valid()
      modifies this
      ensures Valid()
      ensures var spec := UpdateRuleSpec(old(rules), id, input, env);
              && (spec.Err? ==> r == Err(spec.error) && rules == old(rules))
              && (spec.Ok? ==> rules == spec.value && r.Ok? && r.value in rules && r.value.id == env.castId(id))
    {
      if !env.validId(id) {
        return Err(InvalidRuleId);
      }
      if input.condition.Some? && input.condition.value.date != "" &&
         !IsValidDateString(input.condition.value.date) {
        return Err(InvalidDateFormat);
      }
      var index := FindById(rules, RuleId, env.castId(id));
      if index.None? {
        return Err(RuleNotFound);
      }
      var rule, badType := AssignFields(rules[index.value], input);

      if rule.condition.date != "" {
        var existing := FindByDate(rules, rule.condition.date, Some(rule.id));
        if existing.Some? {
          return Err(DuplicateDate);
        }
      }
      if badType {
        return Err(ServerError);
      }
      UpdatePreservesInvariant(rules, id, input, env);
      rules := rules[index.value := rule];
      assert rules[index.value] == rule;
      return Ok(rule);
    }

    /** deletePricingRule. */
    method DeleteRule(id: Id, env: Env) returns (r: Result<PricingRule, RuleError>)
      requires Valid()
      modifies this
      ensures Valid()
      ensures var spec := DeleteRuleSpec(old(rules), id, env);
              && (spec.Err? ==> r == Err(spec.error) && rules == old(rules))
              && (spec.Ok? ==> rules == spec.value && r.Ok? && r.value in old(rules) && r.value.id == env.castId(id))
    {
      if !env.validId(id) {
        return Err(InvalidRuleId);
      }
      var index := FindById(rules, RuleId, env.castId(id));
      if index.None? {
        return Err(RuleNotFound);
      }
      var rule := rules[index.value];
      DeletePreservesInvariant(rules, id, env);
      rules := rules[..index.value] + rules[index.value + 1..];
      return Ok(rule);
    }
  }
}
