/** The records of the booking app: catalogue entries and bookings. */
module Types {

  datatype Option<+T> = None | Some(value: T)

  /** The three values a booking's `status` can take. */
  datatype Status = Pending | Completed | Cancelled

  /** A catalogue entry; `price` is in dong, the smallest currency unit. */
  datatype Service = Service(id: string, name: string, price: nat, duration: string, description: string)

  /** A reservation. `createdAt` is the submission time in epoch milliseconds. */
  datatype Booking = Booking(
    id: string,
    customerName: string,
    phoneNumber: string,
    serviceId: string,
    date: string,
    time: string,
    createdAt: int,
    status: Status)

  /** `b` and `c` agree on every field except possibly `status`. */
  predicate SameExceptStatus(b: Booking, c: Booking) {
    && b.id == c.id
    && b.customerName == c.customerName
    && b.phoneNumber == c.phoneNumber
    && b.serviceId == c.serviceId
    && b.date == c.date
    && b.time == c.time
    && b.createdAt == c.createdAt
  }
}
