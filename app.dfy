/**
 * The booking list the whole app shares: loaded once on mount, mirrored to
 * local storage after every change, grown by the customer side and
 * re-statused by the owner side.
 */
module App {
  import opened Types

  /** `[...prev, newBooking]`: the new booking goes last and every earlier
      booking keeps its index. Duplicates are not rejected. */
  function Append(bookings: seq<Booking>, b: Booking): (r: seq<Booking>)
    ensures |r| == |bookings| + 1
    ensures r[|bookings|] == b
    ensures forall i :: 0 <= i < |bookings| ==> r[i] == bookings[i]
  {
    bookings + [b]
  }

  /** `prev.map(b => b.id === id ? { ...b, status } : b)`: same length and
      order; every booking carrying the id, duplicates included, gets the new
      status and keeps its other fields; every other booking is untouched. */
  function WithStatus(bookings: seq<Booking>, id: string, status: Status): (r: seq<Booking>)
    ensures |r| == |bookings|
    ensures forall i :: 0 <= i < |bookings| && bookings[i].id == id ==>
      r[i].status == status && SameExceptStatus(r[i], bookings[i])
    ensures forall i :: 0 <= i < |bookings| && bookings[i].id != id ==> r[i] == bookings[i]
  {
    if bookings == [] then []
    else
      var b, tail := bookings[0], bookings[1..];
      var r := [if b.id == id then b.(status := status) else b] + WithStatus(tail, id, status);
      assert forall i :: 1 <= i < |bookings| ==> bookings[i] == tail[i - 1] && r[i] == WithStatus(tail, id, status)[i - 1];
      r
  }

  /** An id that no booking carries changes nothing. */
  lemma WithStatusAbsentId(bookings: seq<Booking>, id: string, status: Status)
    requires forall i :: 0 <= i < |bookings| ==> bookings[i].id != id
    ensures WithStatus(bookings, id, status) == bookings
  {
  }

  /** Setting the same status twice is setting it once. */
  lemma WithStatusIdempotent(bookings: seq<Booking>, id: string, status: Status)
    ensures WithStatus(WithStatus(bookings, id, status), id, status) == WithStatus(bookings, id, status)
  {
    var once := WithStatus(bookings, id, status);
    var twice := WithStatus(once, id, status);
    forall i | 0 <= i < |bookings| ensures twice[i] == once[i] {
    }
  }

  /** The app's shared list. `storage` is the value last written to local
      storage; the save effect keeps it equal to `bookings`. */
  class BookingStore {
    var bookings: seq<Booking>
    var storage: seq<Booking>

    ghost predicate Valid()
      reads this
    {
      storage == bookings
    }

    /** Mount: `saved` is the parsed stored list, or None when the key is
        absent or its value does not parse; then the list stays empty. */
    constructor Mount(saved: Option<seq<Booking>>)
      ensures Valid()
      ensures saved.None? ==> bookings == []
      ensures saved.Some? ==> bookings == saved.value
    {
      bookings := if saved.Some? then saved.value else [];
      storage := bookings;
    }

    /** `addBooking`. */
    method AddBooking(b: Booking)
      requires Valid()
      modifies this
      ensures Valid()
      ensures bookings == Append(old(bookings), b)
    {
      bookings := Append(bookings, b);
      storage := bookings;
    }

    /** `updateBookingStatus`. */
    method UpdateBookingStatus(id: string, status: Status)
      requires Valid()
      modifies this
      ensures Valid()
      ensures bookings == WithStatus(old(bookings), id, status)
    {
      bookings := WithStatus(bookings, id, status);
      storage := bookings;
    }
  }
}
