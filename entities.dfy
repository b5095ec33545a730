/** The stored documents of the booking backend (the Mongoose schemas). */
module Entities {
  import opened Common

  datatype BookingStatus = Confirmed | Cancelled

  /** One line of `resources.equipment`. */
  datatype EquipmentLine = EquipmentLine(equipmentId: Id, quantity: int)

  datatype Breakdown = Breakdown(
    basePrice: real,
    peakFee: real,
    weekendFee: real,
    equipmentFee: real,
    coachFee: real,
    total: real)

  datatype Booking = Booking(
    id: Id,
    user: Id,
    court: Id,
    startTime: int,
    endTime: int,
    equipment: seq<EquipmentLine>,
    coach: Option<Id>,
    pricing: Breakdown,
    status: BookingStatus)

  /** The `_id` of a booking document. */
  function BookingId(b: Booking): Id { b.id }

  /** A court; `courtType` is "indoor" or "outdoor". */
  datatype Court = Court(courtType: string, basePrice: real, isActive: bool)

  /** A weekly working window of a coach: day 0..6, hours 0..23. */
  datatype Window = Window(dayOfWeek: int, startHour: int, endHour: int)

  datatype Coach = Coach(hourlyRate: real, availability: seq<Window>, isActive: bool)

  datatype Equipment = Equipment(name: string, totalStock: int, perUnitFee: real, isActive: bool)

  datatype RuleType = Fixed | Multiplier

  /** The conditions of a pricing rule. An empty list, a missing hour bound
      and the empty date string each mean "no condition of this kind". */
  datatype Condition = Condition(
    dayOfWeek: seq<int>,
    startHour: Option<int>,
    endHour: Option<int>,
    date: string,
    courtTypes: seq<string>)

  /** The condition `{}`. */
  const NoCondition := Condition([], None, None, "", [])

  datatype PricingRule = PricingRule(
    id: Id,
    name: string,
    ruleType: RuleType,
    condition: Condition,
    value: real,
    isActive: bool)

  /** The `_id` of a pricing-rule document. */
  function RuleId(r: PricingRule): Id { r.id }

  /** The collections the booking operations read but do not change. */
  datatype Catalog = Catalog(
    courts: map<Id, Court>,
    coaches: map<Id, Coach>,
    equipment: map<Id, Equipment>,
    rules: seq<PricingRule>)
}
