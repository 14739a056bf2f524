/**
 * The booking service: checkout hands the cart to `process_sale`, which
 * renames the cart's columns to `flight_id` and `user_id` on a copy, stamps
 * every row with the one sale date, and passes the rows, in order, to
 * `add_booking`. Nothing is published anywhere: the ledger insert is the only
 * effect.
 */
module BookingService {
  import opened Wrappers
  import opened Schema
  import opened FlightRepository

  /** A cart row: the flight column ("Рейс", `None` when no flight was selected) and the user column ("Пользователь"). */
  datatype CartRow = CartRow(flight: Option<nat>, user: nat)

  /**
   * The renamed copy with its `booking_time` column: row i carries the flight
   * and user of cart row i, unchanged, and the sale date.
   */
  function ToSaleRows(items: seq<CartRow>, saleDate: nat): (rows: seq<SaleRow>)
    ensures |rows| == |items|
    ensures forall i :: 0 <= i < |items| ==> rows[i] == SaleRow(items[i].flight, items[i].user, saleDate)
  {
    if items == [] then [] else [SaleRow(items[0].flight, items[0].user, saleDate)] + ToSaleRows(items[1..], saleDate)
  }

  /** A finished sale books cart row i under id start + i, with the sale date as booking time. */
  lemma {:induction false} SaleBookingAt(start: nat, items: seq<CartRow>, saleDate: nat, status: string, k: nat, i: nat)
    requires k <= |items| && i < k
    requires forall j :: 0 <= j < k ==> items[j].flight.Some?
    ensures forall j :: 0 <= j < k ==> ToSaleRows(items, saleDate)[..k][j].flightId.Some?
    ensures start + i in NewBookings(start, ToSaleRows(items, saleDate)[..k], status)
    ensures NewBookings(start, ToSaleRows(items, saleDate)[..k], status)[start + i] ==
      Booking(items[i].flight.value, items[i].user, saleDate, status)
  {
    var rows := ToSaleRows(items, saleDate)[..k];
    assert forall j :: 0 <= j < k ==> rows[j] == ToSaleRows(items, saleDate)[j];
    NewBookingsAt(start, rows, status, i);
  }

  /**
   * `process_sale`: book every cart row, in order, at `saleDate`. The status of
   * the new bookings is chosen by the booking procedure (`procStatus`). When a
   * row is rejected the remaining rows are not booked and the error reaches
   * the caller (`ok` false); the rows booked before it stay.
   */
  method ProcessSale(saleDate: nat, items: seq<CartRow>, db: Database, procStatus: string)
    returns (inserted: nat, ok: bool)
    requires db.Valid()
    modifies db
    ensures db.Valid()
    ensures inserted <= |items|
    ensures ok <==> forall i :: 0 <= i < |items| ==>
      Insertable(old(db.flights), old(db.users), SaleRow(items[i].flight, items[i].user, saleDate))
    ensures ok ==> inserted == |items| && |db.bookings| == |old(db.bookings)| + |items|
    ensures !ok ==> (inserted < |items| &&
      !Insertable(old(db.flights), old(db.users), SaleRow(items[inserted].flight, items[inserted].user, saleDate)))
    ensures forall i :: 0 <= i < inserted ==>
      Insertable(old(db.flights), old(db.users), SaleRow(items[i].flight, items[i].user, saleDate))
    ensures forall i :: 0 <= i < inserted ==> items[i].flight.Some?
    ensures db.bookings == old(db.bookings) +
      NewBookings(old(db.nextBookingId), ToSaleRows(items, saleDate)[..inserted], procStatus)
    ensures forall id :: id in old(db.bookings) ==> id < old(db.nextBookingId)
    ensures db.users == old(db.users) && db.flights == old(db.flights)
    ensures db.payments == old(db.payments) && db.reviews == old(db.reviews)
  {
    var rows := ToSaleRows(items, saleDate);
    assert forall i :: 0 <= i < |items| ==> rows[i] == SaleRow(items[i].flight, items[i].user, saleDate);
    inserted, ok := AddBooking(db, rows, procStatus);
    if ok {
      assert rows[..inserted] == rows;
      NewBookingsCount(old(db.nextBookingId), rows, procStatus);
      DisjointUnionSize(old(db.bookings), NewBookings(old(db.nextBookingId), rows, procStatus));
    }
  }
}
