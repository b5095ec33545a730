# Courts booking backend: availability, pricing and booking rules in Dafny

This project models the booking logic of a sports-court booking backend and
proves properties of it.

- **Availability** (`availability.dfy`). It decides whether a court, a coach or
  a set of equipment quantities is free for a requested window. Every database
  query over bookings is a filter over an in-memory `seq<Booking>`.
- **Pricing engine** (`pricing.dfy`, with the generic sums and products in
  `folds.dfy`). It folds the active pricing rules over the base price (court
  rate × duration) and adds the equipment and coach fees. The total is the sum
  of the five components. Money and hours are exact `real`s.
- **Booking operations** (`bookings.dfy`).
  - `createBooking` is an ordered cascade of checks. It either appends exactly
    one confirmed booking or returns an error and leaves the store unchanged.
  - `cancelBooking` is an authorised, in-place status update.
  - Both are methods of a `BookingStore` class. Its invariant is that no two
    confirmed bookings of one court overlap.
- **Pricing-rule administration** (`pricing_rules.dfy`).
  - The `YYYY-MM-DD` shape check.
  - Create, update and delete over a `RuleTable` class. Its invariant is that
    at most one rule carries any given holiday date.
- **Shared pieces.** `common.dfy` holds `Option`, `Result`, JavaScript truthiness
  of strings, and the environment. `entities.dfy` holds the stored documents.

Times are integers (milliseconds). Everything the JavaScript `Date` object and
Mongoose decide on their own is a field of the `Env` datatype that the
operations receive:
- parsing a time string;
- the local weekday, hour and minute;
- the UTC calendar date;
- `ObjectId.isValid`;
- the cast of an id to an ObjectId.

Stored ids (a booking's court, coach and equipment lines, and every document's
`_id`) are ObjectIds. Mongoose casts an id it is given to an ObjectId before a
query or a `findById` compares it, and it casts the ids of a new booking before
saving them. The model has this cast as `Env.castId`, mapping an id string to
the string form of its ObjectId. So "507F1F77BCF86CD799439011" and
"507f1f77bcf86cd799439011" name the same court. Every lookup and query in the
model compares a stored id with the cast of the id it is given.

The pricing engine takes the date from UTC but the weekday and hour from local
time (`backend/utils/pricingEngine.js:31-34`). The model keeps them as separate
functions of `Env`.

Each class method is proved against a specification function of the old state
(`CreateBookingSpec`, `CancelSpec`, `CreateRuleSpec`, `UpdateRuleSpec`,
`DeleteRuleSpec`). The lemmas beside these functions state the properties of
the operation.

Where the code and its documentation differ, the model follows the code, with
two exceptions recorded under "## Findings". There, `Bookings.CreateBookingSpec`
and `Bookings.BookingStore.CreateBooking` use the corrected `Bookings.ParseWindow`,
and the equipment check uses the corrected `Availability.BookedQuantity`. The
as-written versions sit beside them. Elsewhere:
- A `courtId` of valid shape that names no court passes every check. The
  pricing call then throws "Court not found", which is answered 500
  (`CreateError.CourtNotFound`).
- `createBooking` never looks at a court's `isActive`.
- `updatePricingRule` answers 500 for a type outside the schema's enum,
  because its catch-all has no validation branch. `createPricingRule` answers
  400 for the same input.

## Model

| member | source | states |
|---|---|---|
| Availability.FindOne | backend/utils/availabilityChecker.js:24-25 | `findOne` finds nothing iff no booking matches the query; a booking it finds is stored and matches |
| Availability.FindAllSelects | backend/utils/availabilityChecker.js:111 | `find` returns exactly the stored bookings that match the query, each as many times as it is stored, and never more bookings than are stored |
| Availability.IsCourtAvailable | backend/utils/availabilityChecker.js:8-26 | the court is free iff no stored booking meets all of these: its court is the cast of the requested id, it is confirmed, it is not the excluded one, and `start < reqEnd && end > reqStart` |
| Availability.NonBlockingBookingIgnored | backend/utils/availabilityChecker.js:9-22 | adding a booking never changes the court verdict if it is cancelled, on another court (after the cast), excluded, ends by the requested start, or starts at or after the requested end |
| Availability.BackToBackIsNoConflict | backend/utils/availabilityChecker.js:14-15 | a booking ending exactly at the requested start, or starting exactly at the requested end, is no conflict |
| Availability.WithinWorkingHours | backend/utils/availabilityChecker.js:49-59 | true iff some window has the booking's weekday, `startHour*60 <= startMinutes` and `endMinutes <= endHour*60` |
| Availability.IsCoachAvailable | backend/utils/availabilityChecker.js:31-83 | the coach is free iff all of these hold: the coach (by cast id) exists and is active; start and end fall on the same local weekday; some window of that weekday contains the booking in minutes; no confirmed, non-excluded booking of the coach overlaps |
| Availability.InactiveCoachUnavailable | backend/utils/availabilityChecker.js:32-35 | a missing or inactive coach is never available, whatever the bookings |
| Availability.FirstQuantity | backend/utils/availabilityChecker.js:116-121 | the quantity of the first line of a booking for the item; none iff no line names the item |
| Availability.SumBooked | backend/utils/availabilityChecker.js:114-122 | the `forEach` adds up, over the selected bookings, the quantity of each one's first line for the item |
| Availability.BookedQuantityCountsEveryMatch | backend/utils/availabilityChecker.js:96-122 | as intended: a confirmed, overlapping, non-excluded booking that lists the item raises the booked quantity by exactly the quantity of its first line for the item |
| Availability.DifferentlySpelledIdNotCounted | backend/utils/availabilityChecker.js:98-118 | as written: a booking the query selects adds nothing when the request spells the item's id differently from its stored form; the intended sum counts it |
| Availability.CheckLine | backend/utils/availabilityChecker.js:90-131 | one pass of the loop gives the line's verdict: not found or inactive, insufficient stock with the stock left and the quantity requested, or available |
| Availability.CheckEquipment | backend/utils/availabilityChecker.js:88-135 | the loop's answer equals the verdict of the first failing line, or available. A line fails when its item is missing or inactive, or when `totalStock - bookedQuantity < quantity` |
| Availability.EquipmentVerdictFirstFailure | backend/utils/availabilityChecker.js:89-134 | the request is available iff every line is satisfied; otherwise the answer is the verdict of the first unsatisfied line |
| Availability.EquipmentVerdictConcat | backend/utils/availabilityChecker.js:89-134 | lines are checked in order: the verdict on `a + b` is `a`'s unless `a` passes entirely, then `b`'s |
| Availability.RepeatedLinePassesAlone | backend/utils/availabilityChecker.js:89-131 | quantities of other lines of the same request are not counted: two identical lines pass when one does |
| Folds.SumOfPermutation | backend/utils/pricingEngine.js:68-79 | the peak and weekend fee sums do not depend on the order of the rules |
| Folds.ProductPermutation | backend/utils/pricingEngine.js:65-67 | the product of the multipliers does not depend on the order of the rules |
| Pricing.PricingSpec | backend/utils/pricingEngine.js:9-105 | there is an error iff the court is missing; `total` is the sum of the five components; a nonzero coach fee means a coach was requested and found |
| Pricing.ApplyRules | backend/utils/pricingEngine.js:39-80 | the rule loop leaves the base price equal to the rate scaled by each applying multiplier rule in turn, and leaves the peak and weekend fees equal to the sums of the applying fixed rules' values of each class |
| Pricing.SumEquipmentFees | backend/utils/pricingEngine.js:83-90 | the equipment loop's fee is the sum of `perUnitFee × quantity` over lines whose equipment exists |
| Pricing.CalculatePricing | backend/utils/pricingEngine.js:9-105 | the imperative computation returns exactly the breakdown (or the error) of the specification |
| Pricing.ApplyMultipliersIsProduct | backend/utils/pricingEngine.js:65-67 | scaling a price by the multipliers in turn equals multiplying it by the product of the rules' factors |
| Pricing.BasePriceIsProduct | backend/utils/pricingEngine.js:18-67 | the final base price is `court.basePrice × duration ×` the product of the active rules' factors, where only an applying multiplier rule has a factor other than 1 |
| Pricing.PricingIgnoresRuleOrder | backend/utils/pricingEngine.js:37-80 | two rule collections with the same multiset of active rules give the same breakdown |
| Pricing.InactiveRuleIgnored | backend/utils/pricingEngine.js:37 | an inactive rule, wherever it stands, never changes the breakdown |
| Pricing.ActiveRulesSelects | backend/utils/pricingEngine.js:37 | the query returns exactly the stored rules that are active, each as many times as it is stored |
| Pricing.RulesInAnyOrder | backend/utils/pricingEngine.js:39-80 | the rule loop's base price, peak fee and weekend fee are the same for any two orderings of the same rules |
| Pricing.NoRuleAppliesProduct | backend/utils/pricingEngine.js:39-63 | when no rule applies, every price is left unchanged and both fee sums are 0 |
| Pricing.NoApplicableRule | backend/utils/pricingEngine.js:22-37 | when no active rule applies, `basePrice = rate × duration` and `peakFee = weekendFee = 0` |
| Pricing.RuleClassification | backend/utils/pricingEngine.js:65-79 | an applying fixed rule adds its whole value to the weekend fee when it targets day 0 or 6 or a date, and otherwise its whole value to the peak fee and nothing to the weekend fee. A rule that does not apply, or a multiplier rule, adds to neither fee, and a fixed rule never scales the base price |
| Pricing.UnknownEquipmentIsFree | backend/utils/pricingEngine.js:83-90 | lines whose equipment does not exist cost nothing |
| Bookings.FirstLineError | backend/controllers/bookingController.js:86-97 | no error iff every line has a valid id and a defined, non-negative quantity; otherwise the error of the first bad line (id checked before quantity) |
| Bookings.ValidateLines | backend/controllers/bookingController.js:86-97 | the loop over the lines stops with the error of the first bad line, and finishes without one exactly when every line is well formed |
| Bookings.ToLines | backend/controllers/bookingController.js:99-114 | the lines passed to the equipment check and to pricing are the validated request lines, one for one |
| Bookings.StoredLines | backend/controllers/bookingController.js:123 | the stored lines are the request lines one for one, each id cast to its ObjectId form |
| Bookings.CreatedCoachIsActive | backend/controllers/bookingController.js:63-124 | a created booking stores a coach iff the request named one, and that coach, looked up by its cast id, exists and is active |
| Bookings.ParseWindow | backend/controllers/bookingController.js:27-39 | as intended: an error iff a time fails to parse, and that error is a 400 "invalid date" |
| Bookings.CreateBookingSpec | backend/controllers/bookingController.js:13-163 | a created booking is confirmed. It has the new id, the requesting user, the cast court id, parsed times with start < end, `equipment \|\| []` and `coachId \|\| null` with cast ids, and exactly the pricing breakdown |
| Bookings.CreateSucceedsIff | backend/controllers/bookingController.js:20-114 | creation succeeds iff every check passes: fields present, times parse and are ordered, ids valid, court free, coach valid and free if requested, equipment an array of valid lines with enough stock, court exists |
| Bookings.MissingFieldFirst | backend/controllers/bookingController.js:20-25 | a missing `courtId`, `startTime` or `endTime` is answered before anything else |
| Bookings.CreateErrorCauses | backend/controllers/bookingController.js:32-152 | with the corrected time step of "## Findings", a time that does not parse answers InvalidDate; an end not after the start answers EndNotAfterStart, both 400s; an error is a 500 iff it is the missing court of the pricing step, which only a court absent from the catalog produces; an InvalidQuantity names a request line whose quantity is missing or negative |
| Bookings.CourtConflictBeforeCoachAndEquipment | backend/controllers/bookingController.js:54-60 | once the fields, times and court id pass, an overlapping confirmed booking of the court decides the answer, whatever the coach and equipment |
| Bookings.UnparsableTimeIsServerError | backend/controllers/bookingController.js:32-38 | as written, an unparsable time is a 500; as intended, a 400 |
| Bookings.CreatePreservesNoCourtOverlap | backend/controllers/bookingController.js:54-60 | if no two confirmed bookings of a court overlap before a successful create, none overlap after it |
| Common.FindById | backend/controllers/bookingController.js:202 | `findById` (of a booking here, of a pricing rule at lines 80 and 116 of `pricingRuleController.js`) finds nothing iff no document has the id it is given (callers give the cast id); otherwise the first position with the id |
| Bookings.CancelResponses | backend/controllers/bookingController.js:196-215 | a malformed id → 400; an id whose cast no booking has → 404; a requester who is neither the owner nor an admin → 403; otherwise exactly the booking with the cast id becomes cancelled and stays in the store, and all else is unchanged |
| Bookings.CancelIdempotent | backend/controllers/bookingController.js:212-213 | cancelling an already cancelled booking succeeds and changes nothing |
| Bookings.CancelPreservesInvariant | backend/controllers/bookingController.js:212-213 | a cancel keeps the ids unique and the courts free of overlaps |
| Bookings.BookingStore.CreateBooking | backend/controllers/bookingController.js:13-163 | the response is that of the specification; on success exactly the new booking is appended, otherwise the store is unchanged; the no-overlap invariant is kept |
| Bookings.BookingStore.CancelBooking | backend/controllers/bookingController.js:196-220 | the response is that of the specification; on success the store becomes the specification's and the returned booking is the stored, cancelled one |
| PricingRules.MatchesAll | backend/controllers/pricingRuleController.js:4 | an anchored pattern without repetition matches iff the lengths agree and each character matches its position |
| PricingRules.DateStringShape | backend/controllers/pricingRuleController.js:4 | `isValidDateString` accepts exactly four digits, '-', two digits, '-', two digits |
| PricingRules.NoCalendarCheck | backend/controllers/pricingRuleController.js:4 | the check does not test the calendar: "2024-02-30" and "2024-13-45" pass, "2024-2-03" does not |
| PricingRules.FindByDate | backend/controllers/pricingRuleController.js:92-95 | finds nothing iff every rule has another date or is the excluded one; a found rule is stored, has the date, and is not the excluded one |
| PricingRules.CreateRuleSpec | backend/controllers/pricingRuleController.js:34-66 | a created rule has the new id, the non-empty name, a known type and the value that were sent; the condition defaults to `{}` and `isActive` to true; its date is empty or of the YYYY-MM-DD shape |
| PricingRules.CreateRejectsBadDate | backend/controllers/pricingRuleController.js:38-40 | a present date of the wrong shape is refused with a 400 "invalid date format", before the duplicate and schema checks |
| PricingRules.CreatePreservesUniqueDates | backend/controllers/pricingRuleController.js:42-47 | a create never gives a second rule the same holiday date |
| PricingRules.CreateRejectsTakenDate | backend/controllers/pricingRuleController.js:42-47 | a well-shaped date already used by any rule, active or not, is refused with a 400 |
| PricingRules.MergeEmptyIsIdentity | backend/controllers/pricingRuleController.js:85-89 | an update body with no fields leaves the rule as it was |
| PricingRules.MergeIdempotent | backend/controllers/pricingRuleController.js:85-89 | applying the same update body twice is applying it once |
| PricingRules.UpdateErrorOrder | backend/controllers/pricingRuleController.js:68-107 | a malformed id is refused first; then a badly shaped date, even for an unknown rule; then a missing rule is a 404; a 500 only for an unknown type |
| PricingRules.UpdateChangesOneRule | backend/controllers/pricingRuleController.js:85-89 | only the rule with the id changes. Name and type are replaced only when truthy, the condition wholesale when sent, and value and isActive when not undefined; the id never changes |
| PricingRules.UpdatePreservesInvariant | backend/controllers/pricingRuleController.js:91-99 | an update keeps the ids unique and never gives two rules the same holiday date |
| PricingRules.UpdateCollidesIff | backend/controllers/pricingRuleController.js:91-99 | for an existing rule and a well-shaped body, the update is refused as a duplicate iff the merged date is non-empty and held by another rule; the rule's own date never counts, whatever else the body changes |
| PricingRules.UpdateWithOwnDate | backend/controllers/pricingRuleController.js:91-99 | re-sending a rule's own condition never collides with the rule itself |
| PricingRules.AssignFields | backend/controllers/pricingRuleController.js:85-89 | the field-by-field assignments produce the merged rule and flag exactly a type the schema will refuse |
| PricingRules.DeleteResponses | backend/controllers/pricingRuleController.js:109-127 | a malformed id → 400; an unknown id → 404; otherwise exactly the one rule with the id is removed and the others are kept |
| PricingRules.DeletePreservesInvariant | backend/controllers/pricingRuleController.js:121 | a delete keeps the ids and the holiday dates unique |
| PricingRules.RuleTable.CreateRule | backend/controllers/pricingRuleController.js:34-66 | the response is that of the specification; on success exactly the new rule is appended; the unique-date invariant is kept |
| PricingRules.RuleTable.UpdateRule | backend/controllers/pricingRuleController.js:68-107 | the response is that of the specification; on success the table becomes the specification's and the returned rule is the stored one; the invariant is kept |
| PricingRules.RuleTable.DeleteRule | backend/controllers/pricingRuleController.js:109-127 | the response is that of the specification; on success the table becomes the specification's; the invariant is kept |

## Findings

| source | as written | input that shows it | evidently intended | confidence | as-written member | corrected member |
|---|---|---|---|---|---|---|
| backend/utils/availabilityChecker.js:117 | The query at line 98 casts the requested `equipmentId` to an ObjectId. The `find` at line 117 instead compares each stored id's lower-case hex string with the id as sent. A booking the query selects therefore adds nothing to `bookedQuantity` when the request spells the id differently, for example in upper case. The stock then looks free, and the item can be overbooked | a confirmed booking holds 5 of equipment `507f1f77bcf86cd799439011` (total stock 5) over the window; a new request asks for 5 of `507F1F77BCF86CD799439011` over the same window and is accepted | the request is refused with "Insufficient stock … Available: 0" | medium (follows from Mongoose casting hex ids case-insensitively); not executed | Availability.DifferentlySpelledIdNotCounted | Availability.BookedQuantityCountsEveryMatch |
| backend/controllers/bookingController.js:32-38 | `toUTC` calls `toISOString()` on the parsed date before the `isNaN` check. For an invalid date that call throws a RangeError, so the 400 branch is never reached and the catch-all answers 500 | `startTime: "not a date"` with the other fields present | a 400 "Invalid date format" response | high (ECMAScript `toISOString` throws on an invalid time value); not executed | Bookings.UnparsableTimeIsServerError | Bookings.ParseWindow |

`Bookings.ParseWindowAsWritten` models the date step as written.
`Bookings.CreateBookingSpec` and `Bookings.BookingStore.CreateBooking` use the
corrected `Bookings.ParseWindow`. `Availability.BookedQuantityAsWritten` models
the booked-quantity sum as written. `Availability.LineVerdict`,
`Availability.CheckEquipment` and the booking operations use the corrected
`Availability.BookedQuantity`, which looks each selected booking's line up by
the cast id.

## Left out

- The frontend, the Express routing, the server set-up, the seed script and the
  statistics controller. These are presentation, wiring and database
  aggregation.
- The CRUD controllers for courts, coaches and equipment. These collections are
  read-only inputs here (`Catalog`).
- Mongoose sessions and transactions, and the race between the availability
  checks and the insert. Each request is modelled as atomic and sequential.
- `populate`, `sort` and the response bodies beyond the data and status
  modelled.
- JavaScript `Date` internals and time zones: parsing, local weekday, hour and
  minute, and the UTC date string are functions in `Env`. `toUTC` keeps the
  instant, so it is the identity on the millisecond value.
- `mongoose.Types.ObjectId.isValid` is the opaque predicate `Env.validId`.
  The cast to an ObjectId is the opaque function `Env.castId`. The model does
  not define the ObjectId string format: lower-case hex, and the hex form of a
  12-character id. The model applies the cast only to ids that passed
  `validId`, as the controllers do. The CastError Mongoose raises for other ids
  is not modelled.
- The ids the database assigns to new documents are inputs (`newId`). The
  create methods require them to differ from every stored id, which the
  database guarantees.
- IEEE-754 rounding of prices and durations: money and hours are exact reals.
- JSON `null` in request fields, non-string `condition.date` values,
  non-integer quantities, and the schema's `trim` on rule names. Absent fields
  and empty strings are modelled; a name of only blanks is not.
- A truthy, non-array `equipment` value without a positive `length` (for
  example an object). Mongoose's cast of such a value at save time is not
  modelled. `EquipmentField` has the absent, non-array-with-length and array
  cases.
- Cast and validation errors that Mongoose would raise at save for values the
  controllers already checked. A booking's `pricingBreakdown` is stored as
  computed.
- `getUserBookings`, `getAllBookings`, `getAllPricingRules` and
  `getPricingRuleById`: read-only queries outside the booking and pricing rules.
- `estimatePrice` (`backend/controllers/pricingController.js`): it only
  forwards the request to `calculatePricing`, which is modelled.
- The `console.error` logging in every catch block: a side effect on the
  server log that changes no response and no stored document.
- The schema option `timestamps: true` (for example `backend/models/Booking.js:52`):
  the `createdAt` and `updatedAt` fields Mongoose maintains are not part of the
  modelled documents, since no rule reads them.
- The `excludeBookingId` argument is modelled in all three availability checks.
  `createBooking` always passes none.
