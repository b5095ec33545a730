/** The booking operations (backend/controllers/bookingController.js):
    createBooking, an ordered cascade of validation and availability checks
    that ends by appending one confirmed booking, and cancelBooking, an
    authorised in-place status update. Each request is atomic; the store of
    bookings is a class whose invariant is that no two confirmed bookings of
    one court overlap. */
module Bookings {
  import opened Common
  import opened Entities
  import opened Availability
  import opened Pricing

  // ---------------------------------------------------------------------
  // The request
  // ---------------------------------------------------------------------

  /** One element of the request's `equipment` array, fields as sent. */
  datatype RequestLine = RequestLine(equipmentId: Option<string>, quantity: Option<int>)

  /** The request's `equipment` field: absent or falsy, a truthy non-array
      value whose `length` is positive, or an array. */
  datatype EquipmentField = NoEquipment | NotAnArray | Lines(items: seq<RequestLine>)

  /** `req.body` of createBooking; a field that was not sent is None. */
  datatype BookingRequest = BookingRequest(
    courtId: Option<string>,
    startTime: Option<string>,
    endTime: Option<string>,
    equipment: EquipmentField,
    coachId: Option<string>)

  /** `req.user`. */
  datatype Requester = Requester(id: Id, role: string)

  datatype CreateError =
    | MissingFields
    | InvalidDate
    | InvalidTimeValue
    | EndNotAfterStart
    | InvalidCourtId
    | CourtUnavailable
    | InvalidCoachId
    | CoachUnavailable
    | EquipmentNotArray
    | InvalidEquipmentId
    | InvalidQuantity
    | EquipmentUnavailable(failure: EquipmentFailure)
    | CourtNotFound
  {
    /** The HTTP status of the response: a thrown error other than a
        validation or cast error is a 500, every other rejection a 400. */
    function Status(): int
    {
      if this == CreateError.CourtNotFound || this == InvalidTimeValue then 500 else 400
    }
  }

  // ---------------------------------------------------------------------
  // The validation cascade of createBooking
  // ---------------------------------------------------------------------

  /** The format error of one equipment line: a falsy or malformed id comes
      before a missing or negative quantity. */
  function LineError(item: RequestLine, env: Env): Option<CreateError>
  {
    if !Truthy(item.equipmentId) || !env.validId(item.equipmentId.value) then Some(InvalidEquipmentId)
    else if item.quantity.None? || item.quantity.value < 0 then Some(InvalidQuantity)
    else None
  }

  /** The error of the first malformed line, if any. */
  function FirstLineError(items: seq<RequestLine>, env: Env): (r: Option<CreateError>)
    ensures r.None? <==> forall i :: 0 <= i < |items| ==> LineError(items[i], env).None?
    ensures r.Some? ==> exists i :: 0 <= i < |items| && LineError(items[i], env) == r &&
                                    forall j :: 0 <= j < i ==> LineError(items[j], env).None?
  {
    if items == [] then None
    else if LineError(items[0], env).Some? then LineError(items[0], env)
    else
      var r := FirstLineError(items[1..], env);
      assert forall k :: 0 < k < |items| ==> items[k] == items[1..][k - 1];
      assert r.Some? ==> exists i :: 0 <= i < |items| && LineError(items[i], env) == r &&
                                     forall j :: 0 <= j < i ==> LineError(items[j], env).None?
      by {
        if r.Some? {
          var i :| 0 <= i < |items[1..]| && LineError(items[1..][i], env) == r &&
                   forall j :: 0 <= j < i ==> LineError(items[1..][j], env).None?;
          assert LineError(items[i + 1], env) == r;
          forall j | 0 <= j < i + 1 ensures LineError(items[j], env).None? {
            if j > 0 { assert items[j] == items[1..][j - 1]; }
          }
        }
      }
      r
  }

  /** The lines as stored and priced, once every line has passed its check. */
  function ToLines(items: seq<RequestLine>): (r: seq<EquipmentLine>)
    ensures |r| == |items|
    ensures forall i :: 0 <= i < |items| && items[i].equipmentId.Some? && items[i].quantity.Some? ==>
              r[i] == EquipmentLine(items[i].equipmentId.value, items[i].quantity.value)
  {
    if items == [] then []
    else [EquipmentLine(items[0].equipmentId.GetOr(""), items[0].quantity.GetOr(0))] + ToLines(items[1..])
  }

  /** `equipment || []`: the lines the booking stores and the pricing sees. */
  function RequestedLines(field: EquipmentField): seq<EquipmentLine>
  {
    match field
    case Lines(items) => ToLines(items)
    case _ => []
  }

  /** The lines as the booking document stores them: Mongoose casts each
      `equipmentId` to an ObjectId on save. */
  function StoredLines(lines: seq<EquipmentLine>, env: Env): (r: seq<EquipmentLine>)
    ensures |r| == |lines|
    ensures forall i :: 0 <= i < |lines| ==>
              r[i] == EquipmentLine(env.castId(lines[i].equipmentId), lines[i].quantity)
  {
    if lines == [] then []
    else [EquipmentLine(env.castId(lines[0].equipmentId), lines[0].quantity)] + StoredLines(lines[1..], env)
  }

  /** `coachId || null`, cast to an ObjectId on save. */
  function StoredCoach(coachId: Option<string>, env: Env): Option<Id>
  {
    if Truthy(coachId) then Some(env.castId(coachId.value)) else None
  }

  /** Whether a value reaches `equipment.length > 0` and is checked. */
  predicate HasEquipment(field: EquipmentField)
  {
    match field
    case NoEquipment => false
    case NotAnArray => true
    case Lines(items) => |items| > 0
  }

  /** The start and end of the request, with the intended 400 for a time
      that does not parse. */
  function ParseWindow(startTime: string, endTime: string, env: Env): (r: Result<(int, int), CreateError>)
    ensures r.Err? <==> env.parseTime(startTime).None? || env.parseTime(endTime).None?
    ensures r.Err? ==> r.error == InvalidDate && r.error.Status() == 400
    ensures r.Ok? ==> Some(r.value.0) == env.parseTime(startTime) && Some(r.value.1) == env.parseTime(endTime)
  {
    var start, end := env.parseTime(startTime), env.parseTime(endTime);
    if start.None? || end.None? then Err(InvalidDate) else Ok((start.value, end.value))
  }

  /** The same step as the code is written: `toUTC` calls `toISOString` on
      the parsed date before the `isNaN` check, and `toISOString` throws a
      RangeError on an invalid date, which the catch-all turns into a 500. */
  function ParseWindowAsWritten(startTime: string, endTime: string, env: Env): Result<(int, int), CreateError>
  {
    var start, end := env.parseTime(startTime), env.parseTime(endTime);
    if start.None? || end.None? then Err(InvalidTimeValue) else Ok((start.value, end.value))
  }

  /** createBooking: the first failing check decides the response; when all
      pass, the new booking. */
  function CreateBookingSpec(bookings: seq<Booking>, req: BookingRequest, user: Id, newId: Id,
                             db: Catalog, env: Env): (r: Result<Booking, CreateError>)
    ensures r.Ok? ==>
      && req.courtId.Some? && req.startTime.Some? && req.endTime.Some?
      && r.value.court == env.castId(req.courtId.value)
      && env.parseTime(req.startTime.value) == Some(r.value.startTime)
      && env.parseTime(req.endTime.value) == Some(r.value.endTime)
      && r.value.startTime < r.value.endTime
      && PricingSpec(req.courtId.value, r.value.startTime, r.value.endTime,
                     RequestedLines(req.equipment), req.coachId, db, env).Ok?
      && r.value == Booking(newId, user, r.value.court, r.value.startTime, r.value.endTime,
                            StoredLines(RequestedLines(req.equipment), env), StoredCoach(req.coachId, env),
                            PricingSpec(req.courtId.value, r.value.startTime, r.value.endTime,
                                        RequestedLines(req.equipment), req.coachId, db, env).value,
                            Confirmed)
  {
    if !Truthy(req.courtId) || !Truthy(req.startTime) || !Truthy(req.endTime) then Err(MissingFields)
    else
      match ParseWindow(req.startTime.value, req.endTime.value, env)
      case Err(e) => Err(e)
      case Ok((start, end)) =>
        var courtId := req.courtId.value;
        if end <= start then Err(EndNotAfterStart)
        else if !env.validId(courtId) then Err(InvalidCourtId)
        else if !IsCourtAvailable(bookings, courtId, start, end, None, env) then Err(CourtUnavailable)
        else if Truthy(req.coachId) && !env.validId(req.coachId.value) then Err(InvalidCoachId)
        else if Truthy(req.coachId) && !IsCoachAvailable(db.coaches, bookings, req.coachId.value, start, end, env, None)
        then Err(CoachUnavailable)
        else if req.equipment.NotAnArray? then Err(EquipmentNotArray)
        else if HasEquipment(req.equipment) && FirstLineError(req.equipment.items, env).Some?
        then Err(FirstLineError(req.equipment.items, env).value)
        else if HasEquipment(req.equipment) &&
                EquipmentVerdict(ToLines(req.equipment.items), db.equipment, bookings, start, end, None, env).Unavailable?
        then Err(EquipmentUnavailable(
               EquipmentVerdict(ToLines(req.equipment.items), db.equipment, bookings, start, end, None, env).failure))
        else
          var lines := RequestedLines(req.equipment);
          match PricingSpec(courtId, start, end, lines, req.coachId, db, env)
          case Err(_) => Err(CreateError.CourtNotFound)
          case Ok(breakdown) =>
            Ok(Booking(newId, user, env.castId(courtId), start, end, StoredLines(lines, env),
                       StoredCoach(req.coachId, env), breakdown, Confirmed))
  }

  /** Every check createBooking makes, as one conjunction. */
  predicate Admissible(bookings: seq<Booking>, req: BookingRequest, db: Catalog, env: Env)
  {
    && Truthy(req.courtId) && Truthy(req.startTime) && Truthy(req.endTime)
    && env.parseTime(req.startTime.value).Some? && env.parseTime(req.endTime.value).Some?
    && var courtId, start, end := req.courtId.value, env.parseTime(req.startTime.value).value,
                                  env.parseTime(req.endTime.value).value;
    && start < end
    && env.validId(courtId)
    && IsCourtAvailable(bookings, courtId, start, end, None, env)
    && (Truthy(req.coachId) ==>
          env.validId(req.coachId.value) && IsCoachAvailable(db.coaches, bookings, req.coachId.value, start, end, env, None))
    && !req.equipment.NotAnArray?
    && (HasEquipment(req.equipment) ==>
          && (forall i :: 0 <= i < |req.equipment.items| ==> LineError(req.equipment.items[i], env).None?)
          && EquipmentVerdict(ToLines(req.equipment.items), db.equipment, bookings, start, end, None, env) == Available)
    && env.castId(courtId) in db.courts
  }

  /** createBooking succeeds exactly when every check passes, whatever their
      order. */
  lemma CreateSucceedsIff(bookings: seq<Booking>, req: BookingRequest, user: Id, newId: Id, db: Catalog, env: Env)
    ensures CreateBookingSpec(bookings, req, user, newId, db, env).Ok? <==> Admissible(bookings, req, db, env)
  {
  }

  /** A created booking names a coach only when the request did, and that
      coach exists and is active: the stored id is the one the coach check
      looked up. */
  lemma CreatedCoachIsActive(bookings: seq<Booking>, req: BookingRequest, user: Id, newId: Id, db: Catalog, env: Env)
    requires CreateBookingSpec(bookings, req, user, newId, db, env).Ok?
    ensures var b := CreateBookingSpec(bookings, req, user, newId, db, env).value;
            && (b.coach.Some? <==> Truthy(req.coachId))
            && (b.coach.Some? ==> b.coach.value in db.coaches && db.coaches[b.coach.value].isActive)
  {
    CreateSucceedsIff(bookings, req, user, newId, db, env);
    var b := CreateBookingSpec(bookings, req, user, newId, db, env).value;
    assert b.coach == StoredCoach(req.coachId, env);
    if Truthy(req.coachId) {
      var start, end := env.parseTime(req.startTime.value).value, env.parseTime(req.endTime.value).value;
      assert IsCoachAvailable(db.coaches, bookings, req.coachId.value, start, end, env, None);
    }
  }

  /** The response each failing check produces: a time that does not parse
      and an end not after the start are 400s; a 500 comes only from the
      pricing step's missing court; a quantity error names a request line
      with a missing or negative quantity. */
  lemma CreateErrorCauses(bookings: seq<Booking>, req: BookingRequest, user: Id, newId: Id, db: Catalog, env: Env)
    ensures Truthy(req.courtId) && Truthy(req.startTime) && Truthy(req.endTime) &&
            (env.parseTime(req.startTime.value).None? || env.parseTime(req.endTime.value).None?) ==>
              CreateBookingSpec(bookings, req, user, newId, db, env) == Err(InvalidDate)
    ensures Truthy(req.courtId) && Truthy(req.startTime) && Truthy(req.endTime) &&
            env.parseTime(req.startTime.value).Some? && env.parseTime(req.endTime.value).Some? &&
            env.parseTime(req.endTime.value).value <= env.parseTime(req.startTime.value).value ==>
              CreateBookingSpec(bookings, req, user, newId, db, env) == Err(EndNotAfterStart)
    ensures var r := CreateBookingSpec(bookings, req, user, newId, db, env);
            r.Err? ==> (r.error.Status() == 500 <==> r.error == CreateError.CourtNotFound)
    ensures CreateBookingSpec(bookings, req, user, newId, db, env) == Err(CreateError.CourtNotFound) ==>
              req.courtId.Some? && env.castId(req.courtId.value) !in db.courts
    ensures CreateBookingSpec(bookings, req, user, newId, db, env) == Err(InvalidQuantity) ==>
              && req.equipment.Lines?
              && exists i :: 0 <= i < |req.equipment.items| && LineError(req.equipment.items[i], env) == Some(InvalidQuantity)
  {
  }

  /** A missing field is reported before anything else is looked at. */
  lemma MissingFieldFirst(bookings: seq<Booking>, req: BookingRequest, user: Id, newId: Id, db: Catalog, env: Env)
    requires !Truthy(req.courtId) || !Truthy(req.startTime) || !Truthy(req.endTime)
    ensures CreateBookingSpec(bookings, req, user, newId, db, env) == Err(MissingFields)
  {
  }

  /** A court that is taken is reported before the coach and the equipment
      are looked at. */
  lemma CourtConflictBeforeCoachAndEquipment(bookings: seq<Booking>, req: BookingRequest, user: Id, newId: Id,
                                             db: Catalog, env: Env, i: nat)
    requires Truthy(req.courtId) && Truthy(req.startTime) && Truthy(req.endTime)
    requires env.parseTime(req.startTime.value).Some? && env.parseTime(req.endTime.value).Some?
    requires env.parseTime(req.startTime.value).value < env.parseTime(req.endTime.value).value
    requires env.validId(req.courtId.value)
    requires i < |bookings| && bookings[i].court == env.castId(req.courtId.value) && bookings[i].status == Confirmed
    requires Overlaps(bookings[i].startTime, bookings[i].endTime,
                      env.parseTime(req.startTime.value).value, env.parseTime(req.endTime.value).value)
    ensures CreateBookingSpec(bookings, req, user, newId, db, env) == Err(CourtUnavailable)
  {
    var start, end := env.parseTime(req.startTime.value).value, env.parseTime(req.endTime.value).value;
    assert !IsCourtAvailable(bookings, req.courtId.value, start, end, None, env) by {
      assert bookings[i].startTime < end && bookings[i].endTime > start;
    }
  }

  /** With the time validation as written, a request whose time does not
      parse is answered 500; as intended, it is answered 400. */
  lemma UnparsableTimeIsServerError(startTime: string, endTime: string, env: Env)
    requires env.parseTime(startTime).None?
    ensures ParseWindowAsWritten(startTime, endTime, env).Err?
    ensures ParseWindowAsWritten(startTime, endTime, env).error.Status() == 500
    ensures ParseWindow(startTime, endTime, env).Err?
    ensures ParseWindow(startTime, endTime, env).error.Status() == 400
  {
  }

  // ---------------------------------------------------------------------
  // The store invariant
  // ---------------------------------------------------------------------

  predicate UniqueIds(bookings: seq<Booking>)
  {
    forall i, j :: 0 <= i < j < |bookings| ==> bookings[i].id != bookings[j].id
  }

  /** No two confirmed bookings of the same court overlap. */
  predicate NoCourtOverlap(bookings: seq<Booking>)
  {
    forall i, j :: 0 <= i < j < |bookings| &&
                   bookings[i].court == bookings[j].court &&
                   bookings[i].status == Confirmed && bookings[j].status == Confirmed ==>
                   !Overlaps(bookings[i].startTime, bookings[i].endTime, bookings[j].startTime, bookings[j].endTime)
  }

  /** A successful createBooking keeps the courts free of overlaps: the
      court check has seen every confirmed booking of the court. */
  lemma CreatePreservesNoCourtOverlap(bookings: seq<Booking>, req: BookingRequest, user: Id, newId: Id,
                                      db: Catalog, env: Env)
    requires NoCourtOverlap(bookings)
    requires CreateBookingSpec(bookings, req, user, newId, db, env).Ok?
    ensures NoCourtOverlap(bookings + [CreateBookingSpec(bookings, req, user, newId, db, env).value])
  {
    var b := CreateBookingSpec(bookings, req, user, newId, db, env).value;
    var all := bookings + [b];
    CreateSucceedsIff(bookings, req, user, newId, db, env);
    assert IsCourtAvailable(bookings, req.courtId.value, b.startTime, b.endTime, None, env);
    forall i, j | 0 <= i < j < |all| && all[i].court == all[j].court &&
                  all[i].status == Confirmed && all[j].status == Confirmed
      ensures !Overlaps(all[i].startTime, all[i].endTime, all[j].startTime, all[j].endTime)
    {
      if j == |bookings| {
        assert all[i] == bookings[i] && all[j] == b;
      } else {
        assert all[i] == bookings[i] && all[j] == bookings[j];
      }
    }
  }

  // ---------------------------------------------------------------------
  // cancelBooking
  // ---------------------------------------------------------------------

  datatype CancelError = InvalidBookingId | BookingNotFound | NotAuthorized
  {
    function Status(): int
    {
      match this
      case InvalidBookingId => 400
      case BookingNotFound => 404
      case NotAuthorized => 403
    }
  }

  /** The owner of the booking or an admin may cancel it. */
  predicate MayCancel(b: Booking, requester: Requester)
  {
    b.user == requester.id || requester.role == "admin"
  }

  /** cancelBooking: the store after the call, or the error. */
  function CancelSpec(bookings: seq<Booking>, id: Id, requester: Requester, env: Env): Result<seq<Booking>, CancelError>
  {
    if !env.validId(id) then Err(InvalidBookingId)
    else
      match FindById(bookings, BookingId, env.castId(id))
      case None => Err(BookingNotFound)
      case Some(i) =>
        if !MayCancel(bookings[i], requester) then Err(NotAuthorized)
        else Ok(bookings[i := bookings[i].(status := Cancelled)])
  }

  /** The four responses of cancelBooking, and that a cancel changes the
      status of the one booking with the id and nothing else. */
  lemma CancelResponses(bookings: seq<Booking>, id: Id, requester: Requester, env: Env)
    requires UniqueIds(bookings)
    ensures CancelSpec(bookings, id, requester, env) == Err(InvalidBookingId) <==> !env.validId(id)
    ensures CancelSpec(bookings, id, requester, env) == Err(BookingNotFound) <==>
              env.validId(id) && forall i :: 0 <= i < |bookings| ==> bookings[i].id != env.castId(id)
    ensures CancelSpec(bookings, id, requester, env) == Err(NotAuthorized) <==>
              env.validId(id) &&
              exists i :: 0 <= i < |bookings| && bookings[i].id == env.castId(id) && !MayCancel(bookings[i], requester)
    ensures CancelSpec(bookings, id, requester, env).Ok? ==>
              var after := CancelSpec(bookings, id, requester, env).value;
              && |after| == |bookings|
              && forall k :: 0 <= k < |bookings| ==>
                   after[k] == if bookings[k].id == env.castId(id) then bookings[k].(status := Cancelled) else bookings[k]
  {
  }

  /** Cancelling an already cancelled booking succeeds and changes nothing. */
  lemma CancelIdempotent(bookings: seq<Booking>, id: Id, requester: Requester, env: Env)
    requires CancelSpec(bookings, id, requester, env).Ok?
    ensures var once := CancelSpec(bookings, id, requester, env).value;
            CancelSpec(once, id, requester, env) == Ok(once)
  {
    var i := FindById(bookings, BookingId, env.castId(id)).value;
    var once := CancelSpec(bookings, id, requester, env).value;
    assert forall k :: 0 <= k < |once| ==> once[k].id == bookings[k].id;
    assert FindById(once, BookingId, env.castId(id)) == Some(i);
    assert once[i := once[i].(status := Cancelled)] == once;
  }

  /** A cancel keeps the ids unique and the courts free of overlaps. */
  lemma CancelPreservesInvariant(bookings: seq<Booking>, id: Id, requester: Requester, env: Env)
    requires UniqueIds(bookings) && NoCourtOverlap(bookings)
    requires CancelSpec(bookings, id, requester, env).Ok?
    ensures UniqueIds(CancelSpec(bookings, id, requester, env).value)
    ensures NoCourtOverlap(CancelSpec(bookings, id, requester, env).value)
  {
    var after := CancelSpec(bookings, id, requester, env).value;
    assert forall k :: 0 <= k < |after| ==>
             after[k].id == bookings[k].id && after[k].court == bookings[k].court &&
             after[k].startTime == bookings[k].startTime && after[k].endTime == bookings[k].endTime &&
             (after[k].status == Confirmed ==> bookings[k].status == Confirmed);
  }

  /** The loop of createBooking over the equipment lines: the first line
      with a falsy or malformed id or a missing or negative quantity stops
      it with that error. */
  method ValidateLines(items: seq<RequestLine>, env: Env) returns (r: Option<CreateError>)
    ensures r == FirstLineError(items, env)
  {
    for i := 0 to |items|
      invariant FirstLineError(items, env) == FirstLineError(items[i..], env)
    {
      var item := items[i];
      assert items[i..][0] == item && items[i..][1..] == items[i + 1..];
      if !Truthy(item.equipmentId) || !env.validId(item.equipmentId.value) {
        return Some(InvalidEquipmentId);
      }
      if item.quantity.None? || item.quantity.value < 0 {
        return Some(InvalidQuantity);
      }
    }
    return None;
  }

  // ---------------------------------------------------------------------
  // The store
  // ---------------------------------------------------------------------

  /** The bookings collection. */
  class BookingStore {
    var bookings: seq<Booking>

    ghost predicate Valid()
      reads this
    {
      UniqueIds(bookings) && NoCourtOverlap(bookings)
    }

    constructor()
      ensures Valid() && bookings == []
    {
      bookings := [];
    }

    /** createBooking. `newId` is the id the database gives the new
        document, distinct from every stored id. */
    method CreateBooking(req: BookingRequest, user: Id, newId: Id, db: Catalog, env: Env)
      returns (r: Result<Booking, CreateError>)
      requires Valid()
      requires forall i :: 0 <= i < |bookings| ==> bookings[i].id != newId
      modifies this
      ensures Valid()
      ensures r == CreateBookingSpec(old(bookings), req, user, newId, db, env)
      ensures bookings == if r.Ok? then old(bookings) + [r.value] else old(bookings)
    {
      if !Truthy(req.courtId) || !Truthy(req.startTime) || !Truthy(req.endTime) {
        return Err(MissingFields);
      }
      var start := env.parseTime(req.startTime.value);
      var end := env.parseTime(req.endTime.value);
      if start.None? || end.None? {
        return Err(InvalidDate);
      }
      var startUtc, endUtc := start.value, end.value;
      if endUtc <= startUtc {
        return Err(EndNotAfterStart);
      }
      var courtId := req.courtId.value;
      if !env.validId(courtId) {
        return Err(InvalidCourtId);
      }
      var courtAvailable := IsCourtAvailable(bookings, courtId, startUtc, endUtc, None, env);
      if !courtAvailable {
        return Err(CourtUnavailable);
      }
      if Truthy(req.coachId) {
        if !env.validId(req.coachId.value) {
          return Err(InvalidCoachId);
        }
        var coachAvailable := IsCoachAvailable(db.coaches, bookings, req.coachId.value, startUtc, endUtc, env, None);
        if !coachAvailable {
          return Err(CoachUnavailable);
        }
      }
      if HasEquipment(req.equipment) {
        if req.equipment.NotAnArray? {
          return Err(EquipmentNotArray);
        }
        var items := req.equipment.items;
        var lineError := ValidateLines(items, env);
        if lineError.Some? {
          return Err(lineError.value);
        }
        var equipmentCheck := CheckEquipment(ToLines(items), db.equipment, bookings, startUtc, endUtc, None, env);
        if equipmentCheck.Unavailable? {
          return Err(EquipmentUnavailable(equipmentCheck.failure));
        }
      }

      var lines := RequestedLines(req.equipment);
      var pricing := CalculatePricing(courtId, startUtc, endUtc, lines, req.coachId, db, env);
      if pricing.Err? {
        return Err(CreateError.CourtNotFound);
      }
      var booking := Booking(newId, user, env.castId(courtId), startUtc, endUtc, StoredLines(lines, env),
                             StoredCoach(req.coachId, env), pricing.value, Confirmed);
      CreatePreservesNoCourtOverlap(bookings, req, user, newId, db, env);
      bookings := bookings + [booking];
      return Ok(booking);
    }

    /** cancelBooking. */
    method CancelBooking(id: Id, requester: Requester, env: Env) returns (r: Result<Booking, CancelError>)
      requires Valid()
      modifies this
      ensures Valid()
      ensures var spec := CancelSpec(old(bookings), id, requester, env);
              && (spec.Err? ==> r == Err(spec.error) && bookings == old(bookings))
              && (spec.Ok? ==> bookings == spec.value && r.Ok? && r.value in bookings &&
                               r.value.id == env.castId(id) && r.value.status == Cancelled)
    {
      if !env.validId(id) {
        return Err(InvalidBookingId);
      }
      var index := FindById(bookings, BookingId, env.castId(id));
      if index.None? {
        return Err(BookingNotFound);
      }
      var booking := bookings[index.value];
      if booking.user != requester.id && requester.role != "admin" {
        return Err(NotAuthorized);
      }
      booking := booking.(status := Cancelled);
      CancelPreservesInvariant(bookings, id, requester, env);
      bookings := bookings[index.value := booking];
      assert bookings[index.value] == booking;
      return Ok(booking);
    }
  }
}
