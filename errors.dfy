/** The warehouse's error kinds (one constructor per exception class), each
    with the payload it carries and the message `str(e)` shows, plus the two
    Python built-in exceptions the core raises directly. */
module Errors {
  import opened Text

  datatype Error =
    | LocationAlreadyExists(locationId: string)
    | LocationNotFound(locationId: string)
    | LocationHasInventory(locationId: string)
    | ItemNotFound(itemId: string, locationId: string)
    | InsufficientQuantity(itemId: string, locationId: string, requested: int, available: int)
    | InvalidCommand(detail: string)
    | StorageError(detail: string)
      /** Python's built-in `ValueError`, raised by entity validation and
          by the service's own quantity check; its message is the text given. */
    | ValueError(text: string)
      /** Python's built-in `KeyError`, raised by a missing dictionary key. */
    | KeyError(key: string)
  {
    /** The error kinds that derive from the warehouse's own base class. */
    predicate IsWarehouseError() {
      !ValueError? && !KeyError?
    }
  }

  /** `str(e)` */
  function Message(e: Error): (r: string)
    ensures e.ValueError? ==> r == e.text
    ensures !e.ValueError? ==> r != []
  {
    match e
    case LocationAlreadyExists(id) => "Location '" + id + "' already exists"
    case LocationNotFound(id) => "Location '" + id + "' does not exist"
    case LocationHasInventory(id) => "Location '" + id + "' has inventories"
    case ItemNotFound(item, loc) => "Item '" + item + "' not found in location '" + loc + "'"
    case InsufficientQuantity(item, loc, _, available) =>
      "Insufficient quantity of item " + item + " in location " + loc
      + " (has " + IntToString(available) + ")"
    case InvalidCommand(detail) => "Invalid command: " + detail
    case StorageError(detail) => "Storage error: " + detail
    case ValueError(text) => text
    case KeyError(key) => "'" + key + "'"
  }

  /** Result of an operation that returns nothing on success. */
  datatype Outcome = Done | Failed(error: Error)

  /** Result of an operation that returns a value on success. */
  datatype Result<+T> = Ok(value: T) | Err(error: Error) {
    predicate IsFailure() {
      Err?
    }

    function PropagateFailure<U>(): Result<U>
      requires Err?
    {
      Err(error)
    }

    function Extract(): T
      requires Ok?
    {
      value
    }
  }

  /** An insufficient-quantity message ends with "(has N)", and reading N back
      gives the true available amount. */
  lemma InsufficientMessageReportsAvailable(item: string, loc: string, requested: int, available: int)
    ensures var m := Message(InsufficientQuantity(item, loc, requested, available));
      var n := IntToString(available);
      && |m| > |n| + 6
      && m[|m| - |n| - 6 .. |m| - |n| - 1] == "(has "
      && ParseInt(m[|m| - |n| - 1 .. |m| - 1]) == Some(available)
      && m[|m| - 1] == ')'
  {
    var m := Message(InsufficientQuantity(item, loc, requested, available));
    var n := IntToString(available);
    var head := "Insufficient quantity of item " + item + " in location " + loc;
    assert m == head + " (has " + n + ")";
    assert m[|m| - |n| - 6 .. |m| - |n| - 1] == "(has ";
    assert m[|m| - |n| - 1 .. |m| - 1] == n;
    ParseIntToString(available);
  }

  /** The invalid-command and storage kinds prefix the detail with a fixed
      label, and the detail is what follows it. */
  lemma LabelledMessages(detail: string)
    ensures var m := Message(InvalidCommand(detail));
      m[..17] == "Invalid command: " && m[17..] == detail
    ensures var m := Message(StorageError(detail));
      m[..15] == "Storage error: " && m[15..] == detail
  {
  }

  predicate IsLocationError(e: Error) {
    e.LocationAlreadyExists? || e.LocationNotFound? || e.LocationHasInventory?
  }

  /** What a location error's message says after the quoted id. */
  function LocationTail(e: Error): string
    requires IsLocationError(e)
  {
    if e.LocationAlreadyExists? then "' already exists"
    else if e.LocationNotFound? then "' does not exist"
    else "' has inventories"
  }

  /** A location error's message is the quoted id followed by its kind's tail. */
  lemma LocationMessageShape(e: Error)
    requires IsLocationError(e)
    ensures Message(e) == "Location '" + e.locationId + LocationTail(e)
  {
  }

  /** The last sixteen characters of a tail already tell the kind. */
  lemma TailKind(e1: Error, e2: Error)
    requires IsLocationError(e1) && IsLocationError(e2)
    requires var t1, t2 := LocationTail(e1), LocationTail(e2);
      t1[|t1| - 16..] == t2[|t2| - 16..]
    ensures LocationTail(e1) == LocationTail(e2)
    ensures e1.LocationAlreadyExists? == e2.LocationAlreadyExists?
    ensures e1.LocationNotFound? == e2.LocationNotFound?
  {
    var t1, t2 := LocationTail(e1), LocationTail(e2);
    assert t1[|t1| - 16..][0] == t2[|t2| - 16..][0];
    assert t1[|t1| - 16..][15] == t2[|t2| - 16..][15];
  }

  /** Equal strings end in equal suffixes, however they were put together. */
  lemma SameSuffix(p1: string, t1: string, p2: string, t2: string, k: nat)
    requires p1 + t1 == p2 + t2 && k <= |t1| && k <= |t2|
    ensures t1[|t1| - k..] == t2[|t2| - k..]
  {
    var m := p1 + t1;
    assert t1[|t1| - k..] == m[|m| - k..];
    assert t2[|t2| - k..] == m[|m| - k..];
  }

  /** Equal strings with the same head and the same tail agree in between. */
  lemma SameMiddle(h: string, x1: string, x2: string, t: string)
    requires h + x1 + t == h + x2 + t
    ensures x1 == x2
  {
    var m := h + x1 + t;
    assert x1 == m[|h|..|h| + |x1|];
    assert x2 == m[|h|..|h| + |x2|];
  }

  /** The three location errors say which kind they are and which location
      they are about: no two of them share a message. */
  lemma LocationMessagesDistinct(e1: Error, e2: Error)
    requires IsLocationError(e1) && IsLocationError(e2)
    requires Message(e1) == Message(e2)
    ensures e1 == e2
  {
    var id1, id2 := e1.locationId, e2.locationId;
    var t1, t2 := LocationTail(e1), LocationTail(e2);
    LocationMessageShape(e1);
    LocationMessageShape(e2);
    assert "Location '" + id1 + t1 == "Location '" + id2 + t2;
    SameSuffix("Location '" + id1, t1, "Location '" + id2, t2, 16);
    TailKind(e1, e2);
    SameMiddle("Location '", id1, id2, t1);
  }
}
