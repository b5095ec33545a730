/** Whether a court, a coach or a set of equipment quantities is free for a
    requested window (backend/utils/availabilityChecker.js). Each database
    query over bookings is a filter over the in-memory booking list. Stored
    ids are in the form `env.castId` gives; a query casts the id it is given
    to that form before comparing. */
module Availability {
  import opened Common
  import opened Entities

  // ---------------------------------------------------------------------
  // Queries over the booking list
  // ---------------------------------------------------------------------

  /** `Booking.findOne(query)`: the first booking the query matches, if any. */
  function FindOne(bookings: seq<Booking>, matches: Booking -> bool): (r: Option<Booking>)
    ensures r.None? <==> forall i :: 0 <= i < |bookings| ==> !matches(bookings[i])
    ensures r.Some? ==> r.value in bookings && matches(r.value)
  {
    if bookings == [] then None
    else if matches(bookings[0]) then Some(bookings[0])
    else FindOne(bookings[1..], matches)
  }

  /** `Booking.find(query)`: every booking the query matches, in store order. */
  function FindAll(bookings: seq<Booking>, matches: Booking -> bool): seq<Booking>
  {
    if bookings == [] then []
    else (if matches(bookings[0]) then [bookings[0]] else []) + FindAll(bookings[1..], matches)
  }

  /** `find` returns exactly the matching bookings, each as often as it is
      stored, in store order. */
  lemma {:induction false} FindAllSelects(bookings: seq<Booking>, matches: Booking -> bool)
    ensures forall b :: b in FindAll(bookings, matches) <==> b in bookings && matches(b)
    ensures forall b :: multiset(FindAll(bookings, matches))[b] ==
                          if matches(b) then multiset(bookings)[b] else 0
    ensures |FindAll(bookings, matches)| <= |bookings|
  {
    if bookings != [] {
      FindAllSelects(bookings[1..], matches);
      assert bookings == [bookings[0]] + bookings[1..];
    }
  }

  lemma {:induction false} FindAllConcat(a: seq<Booking>, b: seq<Booking>, matches: Booking -> bool)
    ensures FindAll(a + b, matches) == FindAll(a, matches) + FindAll(b, matches)
  {
    if a == [] {
      assert a + b == b;
    } else {
      assert (a + b)[0] == a[0];
      assert (a + b)[1..] == a[1..] + b;
      FindAllConcat(a[1..], b, matches);
    }
  }

  /** The half-open overlap test `existing.start < reqEnd && existing.end > reqStart`. */
  predicate Overlaps(start: int, end: int, reqStart: int, reqEnd: int)
  {
    start < reqEnd && end > reqStart
  }

  /** The optional `_id: { $ne: excludeBookingId }` filter, applied only when
      the excluded id is truthy. */
  predicate IsExcluded(b: Booking, exclude: Option<Id>, env: Env)
  {
    Truthy(exclude) && b.id == env.castId(exclude.value)
  }

  // ---------------------------------------------------------------------
  // Court
  // ---------------------------------------------------------------------

  predicate CourtConflict(b: Booking, courtId: Id, start: int, end: int, exclude: Option<Id>, env: Env)
  {
    && b.court == env.castId(courtId)
    && b.status == Confirmed
    && Overlaps(b.startTime, b.endTime, start, end)
    && !IsExcluded(b, exclude, env)
  }

  /** isCourtAvailable: no confirmed, non-excluded booking of this court
      overlaps the requested window. */
  function IsCourtAvailable(bookings: seq<Booking>, courtId: Id, start: int, end: int,
                            exclude: Option<Id>, env: Env): (r: bool)
    ensures r <==> forall i :: 0 <= i < |bookings| ==>
                     !(bookings[i].court == env.castId(courtId) && bookings[i].status == Confirmed &&
                       bookings[i].startTime < end && bookings[i].endTime > start &&
                       !IsExcluded(bookings[i], exclude, env))
  {
    FindOne(bookings, b => CourtConflict(b, courtId, start, end, exclude, env)).None?
  }

  /** A booking that cannot block the request -- cancelled, on another court,
      excluded, or touching the window only at an end point -- leaves the
      court's availability as it was. */
  lemma NonBlockingBookingIgnored(bookings: seq<Booking>, b: Booking, courtId: Id, start: int, end: int,
                                  exclude: Option<Id>, env: Env)
    requires || b.status == Cancelled
             || b.court != env.castId(courtId)
             || IsExcluded(b, exclude, env)
             || b.endTime <= start
             || b.startTime >= end
    ensures IsCourtAvailable(bookings + [b], courtId, start, end, exclude, env)
            == IsCourtAvailable(bookings, courtId, start, end, exclude, env)
  {
    var all := bookings + [b];
    if IsCourtAvailable(bookings, courtId, start, end, exclude, env) {
      forall i | 0 <= i < |all| ensures !CourtConflict(all[i], courtId, start, end, exclude, env) {
        if i < |bookings| { assert all[i] == bookings[i]; }
      }
    } else {
      var i :| 0 <= i < |bookings| && CourtConflict(bookings[i], courtId, start, end, exclude, env);
      assert all[i] == bookings[i];
    }
  }

  /** Back-to-back bookings do not conflict: one ending exactly at the
      requested start, or starting exactly at the requested end. */
  lemma BackToBackIsNoConflict(b: Booking, courtId: Id, start: int, end: int, exclude: Option<Id>, env: Env)
    requires b.endTime == start || b.startTime == end
    ensures !CourtConflict(b, courtId, start, end, exclude, env)
  {
  }

  // ---------------------------------------------------------------------
  // Coach
  // ---------------------------------------------------------------------

  /** The booking lies inside this weekly window on the same weekday,
      compared in minutes of the day. */
  predicate FitsWindow(w: Window, day: int, startMinutes: int, endMinutes: int)
  {
    w.dayOfWeek == day && startMinutes >= w.startHour * 60 && endMinutes <= w.endHour * 60
  }

  /** `coach.availability.some(...)`. */
  function WithinWorkingHours(availability: seq<Window>, day: int, startMinutes: int, endMinutes: int): (r: bool)
    ensures r <==> exists i :: 0 <= i < |availability| && FitsWindow(availability[i], day, startMinutes, endMinutes)
  {
    if availability == [] then false
    else if FitsWindow(availability[0], day, startMinutes, endMinutes) then true
    else
      var rest := WithinWorkingHours(availability[1..], day, startMinutes, endMinutes);
      assert forall i :: 0 < i < |availability| ==> availability[i] == availability[1..][i - 1];
      rest
  }

  /** Local minutes since midnight: `getHours() * 60 + getMinutes()`. */
  function MinuteOfDay(env: Env, t: int): int
  {
    env.localHour(t) * 60 + env.localMinute(t)
  }

  predicate CoachConflict(b: Booking, coachId: Id, start: int, end: int, exclude: Option<Id>, env: Env)
  {
    && b.coach == Some(env.castId(coachId))
    && b.status == Confirmed
    && Overlaps(b.startTime, b.endTime, start, end)
    && !IsExcluded(b, exclude, env)
  }

  /** isCoachAvailable: the coach exists and is active, start and end fall on
      the same local weekday, the booking fits one of the coach's windows for
      that weekday, and no confirmed booking of the coach overlaps it. */
  function IsCoachAvailable(coaches: map<Id, Coach>, bookings: seq<Booking>, coachId: Id,
                            start: int, end: int, env: Env, exclude: Option<Id>): (r: bool)
    ensures r <==>
      && env.castId(coachId) in coaches
      && coaches[env.castId(coachId)].isActive
      && env.localDay(start) == env.localDay(end)
      && (exists w :: 0 <= w < |coaches[env.castId(coachId)].availability| &&
            var win := coaches[env.castId(coachId)].availability[w];
            win.dayOfWeek == env.localDay(start) &&
            win.startHour * 60 <= MinuteOfDay(env, start) &&
            MinuteOfDay(env, end) <= win.endHour * 60)
      && (forall i :: 0 <= i < |bookings| ==> !CoachConflict(bookings[i], coachId, start, end, exclude, env))
  {
    var key := env.castId(coachId);
    if key !in coaches || !coaches[key].isActive then
      false
    else if env.localDay(start) != env.localDay(end) then
      false
    else if !WithinWorkingHours(coaches[key].availability, env.localDay(start),
                                MinuteOfDay(env, start), MinuteOfDay(env, end)) then
      false
    else
      FindOne(bookings, b => CoachConflict(b, coachId, start, end, exclude, env)).None?
  }

  /** A missing or inactive coach is never available, whatever the bookings. */
  lemma InactiveCoachUnavailable(coaches: map<Id, Coach>, bookings: seq<Booking>, coachId: Id,
                                 start: int, end: int, env: Env, exclude: Option<Id>)
    requires env.castId(coachId) !in coaches || !coaches[env.castId(coachId)].isActive
    ensures !IsCoachAvailable(coaches, bookings, coachId, start, end, env, exclude)
  {
  }

  // ---------------------------------------------------------------------
  // Equipment
  // ---------------------------------------------------------------------

  /** `booking.resources.equipment.find(item => item.equipmentId == id)`:
      the quantity of the first line for this item. */
  function FirstQuantity(lines: seq<EquipmentLine>, id: Id): (r: Option<int>)
    ensures r.None? <==> forall k :: 0 <= k < |lines| ==> lines[k].equipmentId != id
    ensures r.Some? ==> exists k :: 0 <= k < |lines| && lines[k].equipmentId == id && lines[k].quantity == r.value &&
                                    forall j :: 0 <= j < k ==> lines[j].equipmentId != id
  {
    if lines == [] then None
    else if lines[0].equipmentId == id then Some(lines[0].quantity)
    else
      var r := FirstQuantity(lines[1..], id);
      assert forall k :: 0 < k < |lines| ==> lines[k] == lines[1..][k - 1];
      assert r.Some? ==> exists k :: 0 <= k < |lines| && lines[k].equipmentId == id && lines[k].quantity == r.value &&
                                     forall j :: 0 <= j < k ==> lines[j].equipmentId != id
      by {
        if r.Some? {
          var k :| 0 <= k < |lines[1..]| && lines[1..][k].equipmentId == id && lines[1..][k].quantity == r.value &&
                   forall j :: 0 <= j < k ==> lines[1..][j].equipmentId != id;
          assert lines[k + 1].equipmentId == id && lines[k + 1].quantity == r.value;
          forall j | 0 <= j < k + 1 ensures lines[j].equipmentId != id {
            if j > 0 { assert lines[j] == lines[1..][j - 1]; }
          }
        }
      }
      r
  }

  predicate HasItem(b: Booking, id: Id)
  {
    exists k :: 0 <= k < |b.equipment| && b.equipment[k].equipmentId == id
  }

  /** A confirmed, overlapping, non-excluded booking with a line for the
      item, whose id is given in stored form. */
  predicate EquipmentConflict(b: Booking, key: Id, start: int, end: int, exclude: Option<Id>, env: Env)
  {
    && b.status == Confirmed
    && HasItem(b, key)
    && Overlaps(b.startTime, b.endTime, start, end)
    && !IsExcluded(b, exclude, env)
  }

  /** The query of confirmed, overlapping bookings that list the item. */
  function EquipmentQuery(key: Id, start: int, end: int, exclude: Option<Id>, env: Env): Booking -> bool
  {
    b => EquipmentConflict(b, key, start, end, exclude, env)
  }

  /** The quantity of the first line for the item in each booking, summed. */
  function BookedSum(overlapping: seq<Booking>, id: Id): int
  {
    if overlapping == [] then 0
    else
      var last := overlapping[|overlapping| - 1];
      BookedSum(overlapping[..|overlapping| - 1], id) + FirstQuantity(last.equipment, id).GetOr(0)
  }

  /** `bookedQuantity` of isEquipmentAvailable for one requested item, with
      each selected booking's line looked up by the cast id, as the query
      selects it. */
  function BookedQuantity(bookings: seq<Booking>, id: Id, start: int, end: int, exclude: Option<Id>, env: Env): int
  {
    var key := env.castId(id);
    BookedSum(FindAll(bookings, EquipmentQuery(key, start, end, exclude, env)), key)
  }

  /** The same sum as the code is written: the query casts the requested id,
      but the line lookup compares each stored id's string with the requested
      id as sent. */
  function BookedQuantityAsWritten(bookings: seq<Booking>, id: Id, start: int, end: int,
                                   exclude: Option<Id>, env: Env): int
  {
    BookedSum(FindAll(bookings, EquipmentQuery(env.castId(id), start, end, exclude, env)), id)
  }

  lemma BookedSumAppend(overlapping: seq<Booking>, b: Booking, key: Id)
    ensures BookedSum(overlapping + [b], key) == BookedSum(overlapping, key) + FirstQuantity(b.equipment, key).GetOr(0)
  {
    assert (overlapping + [b])[..|overlapping|] == overlapping;
  }

  /** Every booking the query selects counts: a confirmed booking that
      overlaps the window and lists the item raises the booked quantity by
      the quantity of its first line for the item. */
  lemma BookedQuantityCountsEveryMatch(bookings: seq<Booking>, b: Booking, id: Id, start: int, end: int,
                                       exclude: Option<Id>, env: Env)
    requires EquipmentConflict(b, env.castId(id), start, end, exclude, env)
    ensures FirstQuantity(b.equipment, env.castId(id)).Some?
    ensures BookedQuantity(bookings + [b], id, start, end, exclude, env)
            == BookedQuantity(bookings, id, start, end, exclude, env) + FirstQuantity(b.equipment, env.castId(id)).value
  {
    var key := env.castId(id);
    var query := EquipmentQuery(key, start, end, exclude, env);
    FindAllConcat(bookings, [b], query);
    assert [b][1..] == [];
    assert FindAll([b], query) == [b];
    BookedSumAppend(FindAll(bookings, query), b, key);
  }

  /** As written, a booking the query selects adds nothing when the request
      spells the item's id otherwise than it is stored (upper-case hex, for
      one): the sum as written misses it, the intended sum counts it. */
  lemma DifferentlySpelledIdNotCounted(bookings: seq<Booking>, b: Booking, id: Id, start: int, end: int,
                                       exclude: Option<Id>, env: Env)
    requires EquipmentConflict(b, env.castId(id), start, end, exclude, env)
    requires forall k :: 0 <= k < |b.equipment| ==> b.equipment[k].equipmentId != id
    ensures BookedQuantityAsWritten(bookings + [b], id, start, end, exclude, env)
            == BookedQuantityAsWritten(bookings, id, start, end, exclude, env)
    ensures BookedQuantity(bookings + [b], id, start, end, exclude, env)
            == BookedQuantity(bookings, id, start, end, exclude, env) + FirstQuantity(b.equipment, env.castId(id)).value
  {
    var query := EquipmentQuery(env.castId(id), start, end, exclude, env);
    FindAllConcat(bookings, [b], query);
    assert [b][1..] == [];
    assert FindAll([b], query) == [b];
    BookedSumAppend(FindAll(bookings, query), b, id);
    BookedQuantityCountsEveryMatch(bookings, b, id, start, end, exclude, env);
  }

  datatype EquipmentFailure =
    | NotFoundOrInactive(equipmentId: Id)
    | InsufficientStock(name: string, available: int, requested: int)

  datatype EquipmentCheck = Available | Unavailable(failure: EquipmentFailure)

  /** The verdict for one request line, checked on its own. */
  function LineVerdict(line: EquipmentLine, stock: map<Id, Equipment>, bookings: seq<Booking>,
                       start: int, end: int, exclude: Option<Id>, env: Env): EquipmentCheck
  {
    var key := env.castId(line.equipmentId);
    if key !in stock || !stock[key].isActive then
      Unavailable(NotFoundOrInactive(line.equipmentId))
    else
      var item := stock[key];
      var available := item.totalStock - BookedQuantity(bookings, line.equipmentId, start, end, exclude, env);
      if available < line.quantity then Unavailable(InsufficientStock(item.name, available, line.quantity))
      else Available
  }

  /** The verdict of the first line that fails, or Available. */
  function EquipmentVerdict(lines: seq<EquipmentLine>, stock: map<Id, Equipment>, bookings: seq<Booking>,
                            start: int, end: int, exclude: Option<Id>, env: Env): EquipmentCheck
  {
    if lines == [] then Available
    else
      var v := LineVerdict(lines[0], stock, bookings, start, end, exclude, env);
      if v != Available then v else EquipmentVerdict(lines[1..], stock, bookings, start, end, exclude, env)
  }

  /** A line passes iff its item exists, is active, and the stock left after
      the overlapping confirmed bookings covers the requested quantity. */
  predicate LineSatisfied(line: EquipmentLine, stock: map<Id, Equipment>, bookings: seq<Booking>,
                          start: int, end: int, exclude: Option<Id>, env: Env)
  {
    && env.castId(line.equipmentId) in stock
    && stock[env.castId(line.equipmentId)].isActive
    && stock[env.castId(line.equipmentId)].totalStock
         - BookedQuantity(bookings, line.equipmentId, start, end, exclude, env) >= line.quantity
  }

  /** The `forEach` of isEquipmentAvailable: adds the quantity of each
      booking's first line for the item. */
  method SumBooked(overlapping: seq<Booking>, key: Id) returns (bookedQuantity: int)
    ensures bookedQuantity == BookedSum(overlapping, key)
  {
    bookedQuantity := 0;
    for k := 0 to |overlapping|
      invariant bookedQuantity == BookedSum(overlapping[..k], key)
    {
      assert overlapping[..k + 1][..k] == overlapping[..k];
      var item := FirstQuantity(overlapping[k].equipment, key);
      if item.Some? {
        bookedQuantity := bookedQuantity + item.value;
      }
    }
    assert overlapping[..|overlapping|] == overlapping;
  }

  /** One pass of isEquipmentAvailable's loop: the item must exist and be
      active, and the stock left after the overlapping confirmed bookings
      must cover the requested quantity. */
  method CheckLine(request: EquipmentLine, stock: map<Id, Equipment>, bookings: seq<Booking>,
                   start: int, end: int, exclude: Option<Id>, env: Env) returns (r: EquipmentCheck)
    ensures r == LineVerdict(request, stock, bookings, start, end, exclude, env)
  {
    var key := env.castId(request.equipmentId);
    if key !in stock || !stock[key].isActive {
      return Unavailable(NotFoundOrInactive(request.equipmentId));
    }
    var equipment := stock[key];
    var overlapping := FindAll(bookings, EquipmentQuery(key, start, end, exclude, env));
    var bookedQuantity := SumBooked(overlapping, key);
    var availableStock := equipment.totalStock - bookedQuantity;
    if availableStock < request.quantity {
      return Unavailable(InsufficientStock(equipment.name, availableStock, request.quantity));
    }
    return Available;
  }

  /** isEquipmentAvailable: checks the lines in order and reports the first
      that fails. */
  method CheckEquipment(requests: seq<EquipmentLine>, stock: map<Id, Equipment>, bookings: seq<Booking>,
                        start: int, end: int, exclude: Option<Id>, env: Env) returns (r: EquipmentCheck)
    ensures r == EquipmentVerdict(requests, stock, bookings, start, end, exclude, env)
  {
    for i := 0 to |requests|
      invariant EquipmentVerdict(requests, stock, bookings, start, end, exclude, env)
                == EquipmentVerdict(requests[i..], stock, bookings, start, end, exclude, env)
    {
      assert requests[i..][0] == requests[i] && requests[i..][1..] == requests[i + 1..];
      var verdict := CheckLine(requests[i], stock, bookings, start, end, exclude, env);
      if verdict != Available {
        return verdict;
      }
    }
    return Available;
  }

  /** The verdict is Available iff every line is satisfied; otherwise it is
      the verdict of the first line that is not. */
  lemma {:induction false} EquipmentVerdictFirstFailure(lines: seq<EquipmentLine>, stock: map<Id, Equipment>,
                                                        bookings: seq<Booking>, start: int, end: int, exclude: Option<Id>, env: Env)
    ensures EquipmentVerdict(lines, stock, bookings, start, end, exclude, env) == Available <==>
            forall i :: 0 <= i < |lines| ==> LineSatisfied(lines[i], stock, bookings, start, end, exclude, env)
    ensures EquipmentVerdict(lines, stock, bookings, start, end, exclude, env) != Available ==>
            exists i :: 0 <= i < |lines| &&
              EquipmentVerdict(lines, stock, bookings, start, end, exclude, env) == LineVerdict(lines[i], stock, bookings, start, end, exclude, env) &&
              !LineSatisfied(lines[i], stock, bookings, start, end, exclude, env) &&
              forall j :: 0 <= j < i ==> LineSatisfied(lines[j], stock, bookings, start, end, exclude, env)
  {
    if lines != [] {
      var tail := lines[1..];
      EquipmentVerdictFirstFailure(tail, stock, bookings, start, end, exclude, env);
      assert forall i :: 0 < i < |lines| ==> lines[i] == tail[i - 1];
      if LineSatisfied(lines[0], stock, bookings, start, end, exclude, env) &&
         EquipmentVerdict(tail, stock, bookings, start, end, exclude, env) != Available {
        var i :| 0 <= i < |tail| &&
          EquipmentVerdict(tail, stock, bookings, start, end, exclude, env) == LineVerdict(tail[i], stock, bookings, start, end, exclude, env) &&
          !LineSatisfied(tail[i], stock, bookings, start, end, exclude, env) &&
          forall j :: 0 <= j < i ==> LineSatisfied(tail[j], stock, bookings, start, end, exclude, env);
        assert lines[i + 1] == tail[i];
        assert forall j :: 0 <= j < i + 1 ==> LineSatisfied(lines[j], stock, bookings, start, end, exclude, env) by {
          forall j | 0 <= j < i + 1 ensures LineSatisfied(lines[j], stock, bookings, start, end, exclude, env) {
            if j > 0 { assert lines[j] == tail[j - 1]; }
          }
        }
      }
    }
  }

  /** Each line is checked on its own: the verdict for a concatenation is the
      verdict of the first part unless that part passes entirely. */
  lemma {:induction false} EquipmentVerdictConcat(a: seq<EquipmentLine>, b: seq<EquipmentLine>, stock: map<Id, Equipment>,
                                                  bookings: seq<Booking>, start: int, end: int, exclude: Option<Id>, env: Env)
    ensures EquipmentVerdict(a + b, stock, bookings, start, end, exclude, env)
            == if EquipmentVerdict(a, stock, bookings, start, end, exclude, env) == Available
               then EquipmentVerdict(b, stock, bookings, start, end, exclude, env)
               else EquipmentVerdict(a, stock, bookings, start, end, exclude, env)
  {
    if a == [] {
      assert a + b == b;
    } else {
      assert (a + b)[0] == a[0];
      assert (a + b)[1..] == a[1..] + b;
      EquipmentVerdictConcat(a[1..], b, stock, bookings, start, end, exclude, env);
    }
  }

  /** Quantities of other lines of the same request are never counted: two
      lines for the same item each pass when one would. */
  lemma RepeatedLinePassesAlone(line: EquipmentLine, stock: map<Id, Equipment>, bookings: seq<Booking>,
                                start: int, end: int, exclude: Option<Id>, env: Env)
    requires LineSatisfied(line, stock, bookings, start, end, exclude, env)
    ensures EquipmentVerdict([line, line], stock, bookings, start, end, exclude, env) == Available
  {
    assert LineVerdict(line, stock, bookings, start, end, exclude, env) == Available;
    assert [line, line][1..] == [line];
    assert [line][1..] == [];
    assert EquipmentVerdict([line], stock, bookings, start, end, exclude, env) == Available;
  }
}
