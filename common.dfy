/** Shared vocabulary: optional values, results, identifiers, and the runtime
    services (date arithmetic, id validation) that the backend borrows from
    JavaScript's `Date` and from Mongoose and that this model takes as inputs. */
module Common {

  datatype Option<+T> = None | Some(value: T)
  {
    function GetOr(default: T): T
    {
      match this
      case Some(v) => v
      case None => default
    }
  }

  datatype Result<+T, +E> = Ok(value: T) | Err(error: E)

  /** Database object ids, as the strings clients send. */
  type Id = string

  /** JavaScript truthiness of an optional string field: present and not "". */
  predicate Truthy(s: Option<string>)
  {
    s.Some? && s.value != ""
  }

  /** The runtime services the controllers call but that are not part of the
      booking logic. Times are milliseconds since the epoch. */
  datatype Env = Env(
    validId: Id -> bool,               // mongoose.Types.ObjectId.isValid
    parseTime: string -> Option<int>,  // new Date(s).getTime(); None when NaN
    localDay: int -> int,              // Date.getDay, local time, 0 = Sunday
    localHour: int -> int,             // Date.getHours, local time
    localMinute: int -> int,           // Date.getMinutes, local time
    utcDate: int -> string,            // toISOString().split('T')[0], UTC
    castId: Id -> Id                   // String(new ObjectId(s)), lower-case hex: the
                                       // form of every stored id; queries and findById
                                       // cast the id they are given to it
  )

  /** Mongoose's `findById` over a collection: the position of the first
      document whose id, as `idOf` reads it, is `id`. */
  function FindById<T>(docs: seq<T>, idOf: T -> Id, id: Id): (r: Option<nat>)
    ensures r.None? <==> forall i :: 0 <= i < |docs| ==> idOf(docs[i]) != id
    ensures r.Some? ==> r.value < |docs| && idOf(docs[r.value]) == id &&
                        forall j :: 0 <= j < r.value ==> idOf(docs[j]) != id
  {
    if docs == [] then None
    else if idOf(docs[0]) == id then Some(0)
    else
      var rest := FindById(docs[1..], idOf, id);
      assert forall k :: 0 < k < |docs| ==> docs[k] == docs[1..][k - 1];
      if rest.None? then None else Some(rest.value + 1)
  }
}
