/**
  The records deskbird.py exchanges with the booking service, as typed
  values: seats from the configuration, the body of a booking request,
  the outcome of a booking call, the bookings listed for the user and the
  body of a check-in call.  The transport itself is not modelled.
*/
module Api {
  import opened Wrappers

  /** An identifier taken from the configuration or from the service (seat, zone item, workspace, booking). */
  type Id = string

  /** The resource_id and zone_item_id of one favourite seat. */
  datatype SeatInfo = SeatInfo(resourceId: Id, zoneItemId: Id)

  /** One entry of favorite_seats: its name (the dictionary key) and its info. */
  datatype Seat = Seat(name: string, info: SeatInfo)

  /** A local wall-clock time on a day number, at a whole hour. */
  datatype LocalTime = LocalTime(day: int, hour: nat)

  /** Every booking covers 09:00 to 19:00 local time on its date. */
  const StartHour: nat := 9
  const EndHour: nat := 19

  datatype BookingEntry = BookingEntry(
    bookingStartTime: LocalTime,
    bookingEndTime: LocalTime,
    isAnonymous: bool,
    resourceId: Id,
    zoneItemId: Id,
    workspaceId: Id)

  /** The JSON body of a create-booking request. */
  datatype BookingRequest = BookingRequest(bookings: seq<BookingEntry>)

  /** The payload book_seat builds for one seat on one date. */
  function BookingPayload(seat: SeatInfo, date: int, workspaceId: Id): BookingRequest
  {
    BookingRequest([BookingEntry(
      LocalTime(date, StartHour), LocalTime(date, EndHour),
      false, seat.resourceId, seat.zoneItemId, workspaceId)])
  }

  /**
    Reads a request back as the seat, date and workspace it books, when it
    has the shape book_seat sends: a single non-anonymous booking from
    09:00 to 19:00 on one day.
  */
  function RequestedSeat(req: BookingRequest): Option<(SeatInfo, int, Id)>
  {
    if |req.bookings| != 1 then None
    else
      var b := req.bookings[0];
      if b.isAnonymous || b.bookingStartTime != LocalTime(b.bookingStartTime.day, StartHour)
         || b.bookingEndTime != LocalTime(b.bookingStartTime.day, EndHour)
      then None
      else Some((SeatInfo(b.resourceId, b.zoneItemId), b.bookingStartTime.day, b.workspaceId))
  }

  /** book_seat's payload has that shape and carries exactly the seat, date and workspace it was given. */
  lemma BookingPayloadRoundTrip(seat: SeatInfo, date: int, workspaceId: Id)
    ensures RequestedSeat(BookingPayload(seat, date, workspaceId)) == Some((seat, date, workspaceId))
  {
  }

  /**
    What a booking call gives back: Ok with whether successfulBookings is
    non-empty (status 200), or HardFail for any other status, which
    book_seat raises as an exception.
  */
  datatype BookOutcome = Ok(nonEmpty: bool) | HardFail

  /**
    One entry of the results list returned for the user's bookings.  The
    calendar day of bookingStartTime in local time is given as a day
    number; the epoch conversion is not modelled.
  */
  datatype Booking = Booking(id: Id, zoneItemId: Id, day: int, checkInStatus: string)

  /** The checkInStatus value that marks a booking as already checked in. */
  const CheckedIn := "checkedIn"

  /** A check-in call: the booking id in the URL and the qrCodeZoneItemId of its body. */
  datatype CheckInCall = CheckInCall(bookingId: Id, qrCodeZoneItemId: Id)
}
