/**
 * The "My Bookings" page of `src/app/my-bookings/page.jsx`: cancelling a
 * booking in the page's own list and deciding whether a row offers the
 * cancel button. The page imports only `loadBookings`; cancelling is a
 * function of the in-memory list alone, so it has no way to reach the
 * stored slot, and after a reload the stored status shows again.
 */
module MyBookings {
  import opened Wrappers
  import opened Json
  import Storage
  const StatusKey: string := "status"
  const Cancelled: Value := Str("Cancelled")

  /**
   * `b.id === id`, where `None` is `undefined` (a missing `id` property, or a
   * row whose booking had none). Strict equality on numbers and strings is
   * value equality.
   */
  predicate Matches(b: Record, id: Option<Value>) {
    Get(b, Storage.IdKey) == id
  }

  /** One entry of the map: `b.id === id ? { ...b, status: "Cancelled" } : b`. */
  function CancelEntry(b: Record, id: Option<Value>): Record {
    if Matches(b, id) then b[StatusKey := Cancelled] else b
  }

  /** `handleCancel(id)`: `bookings.map(b => ...)`, a new list of the same length. */
  function Cancel(bookings: seq<Record>, id: Option<Value>): (r: seq<Record>)
    ensures |r| == |bookings|
  {
    seq(|bookings|, i requires 0 <= i < |bookings| => CancelEntry(bookings[i], id))
  }

  /** The row shows "Cancel Booking" exactly when `booking.status !== "Cancelled"`. */
  predicate CancelOffered(b: Record) {
    Get(b, StatusKey) != Some(Cancelled)
  }

  /**
   * Each entry whose id matches (however many) ends "Cancelled" with every
   * other property as it was; every other entry is returned as it was.
   */
  lemma CancelPointwise(bookings: seq<Record>, id: Option<Value>, i: nat)
    requires i < |bookings|
    ensures Matches(bookings[i], id) ==>
              Cancel(bookings, id)[i].Keys == bookings[i].Keys + {StatusKey} &&
              Cancel(bookings, id)[i][StatusKey] == Cancelled &&
              forall k :: k in bookings[i] && k != StatusKey ==> Cancel(bookings, id)[i][k] == bookings[i][k]
    ensures !Matches(bookings[i], id) ==> Cancel(bookings, id)[i] == bookings[i]
  {
  }

  /** Cancelling an id that no entry carries gives back the same list. */
  lemma CancelAbsentId(bookings: seq<Record>, id: Option<Value>)
    requires forall i :: 0 <= i < |bookings| ==> !Matches(bookings[i], id)
    ensures Cancel(bookings, id) == bookings
  {
    assert forall i :: 0 <= i < |bookings| ==> Cancel(bookings, id)[i] == bookings[i];
  }

  /** Cancelling keeps each entry's id, so it keeps which entries match. */
  lemma CancelKeepsIds(bookings: seq<Record>, id: Option<Value>, i: nat)
    requires i < |bookings|
    ensures Get(Cancel(bookings, id)[i], Storage.IdKey) == Get(bookings[i], Storage.IdKey)
  {
  }

  /** Cancelling the same id twice gives the same list as cancelling it once. */
  lemma {:induction false} CancelIdempotent(bookings: seq<Record>, id: Option<Value>)
    ensures Cancel(Cancel(bookings, id), id) == Cancel(bookings, id)
  {
    var once := Cancel(bookings, id);
    forall i | 0 <= i < |bookings|
      ensures Cancel(once, id)[i] == once[i]
    {
      CancelKeepsIds(bookings, id, i);
      if Matches(bookings[i], id) {
        assert once[i] == bookings[i][StatusKey := Cancelled];
        assert once[i][StatusKey := Cancelled] == once[i];
      }
    }
  }

  /**
   * After cancelling, no matching entry offers the button again, and an
   * entry that did not offer it before does not offer it afterwards.
   */
  lemma CancelWithdrawsOffer(bookings: seq<Record>, id: Option<Value>, i: nat)
    requires i < |bookings|
    ensures Matches(bookings[i], id) ==> !CancelOffered(Cancel(bookings, id)[i])
    ensures CancelOffered(Cancel(bookings, id)[i]) ==> CancelOffered(bookings[i])
  {
  }

  /** The button is offered exactly when the status is missing or is anything but "Cancelled". */
  lemma CancelOfferedIff(b: Record)
    ensures CancelOffered(b) <==> (StatusKey !in b || b[StatusKey] != Cancelled)
  {
  }
}
