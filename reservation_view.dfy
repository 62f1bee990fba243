/**
 * The reservations page (project/src/components/Reservation.tsx): a form whose
 * status is always `confirmed`, the listed reservations, and the Cancel and
 * Seat actions shown on confirmed reservations only. The page is an object
 * whose handlers update its fields and call the reservation service; each
 * store call takes its own failure flag.
 */
module ReservationView {
  import opened Types
  import opened Store
  import opened ReservationService

  /**
   * The form as the page holds it. `table_id` is the selected option, `None`
   * for the empty "Select a table" choice; `reservation_time` is the date the
   * input denotes, `None` when it is empty or not a date.
   */
  datatype ReservationForm = ReservationForm(customer_name: string, contact_info: string, table_id: Option<int>,
                                             reservation_time: Option<Time>, status: ReservationStatus)

  /** One change event of a named input. */
  datatype FormInput =
    | CustomerName(name: string)
    | ContactInfo(info: string)
    | TableChoice(table: Option<int>)
    | ReservationTime(time: Option<Time>)

  /** The form the page starts with and resets to. */
  function EmptyForm(): (f: ReservationForm)
    ensures f.status == Confirmed && f.customer_name == "" && f.contact_info == ""
    ensures f.table_id.None? && f.reservation_time.None?
  {
    ReservationForm("", "", None, None, Confirmed)
  }

  /** `setFormData(prev => ({ ...prev, [name]: value }))`: the named field takes the value, the others are kept. */
  function WithInput(form: ReservationForm, input: FormInput): (r: ReservationForm)
    ensures r.customer_name == if input.CustomerName? then input.name else form.customer_name
    ensures r.contact_info == if input.ContactInfo? then input.info else form.contact_info
    ensures r.table_id == if input.TableChoice? then input.table else form.table_id
    ensures r.reservation_time == if input.ReservationTime? then input.time else form.reservation_time
    ensures r.status == form.status
  {
    match input
    case CustomerName(s) => form.(customer_name := s)
    case ContactInfo(s) => form.(contact_info := s)
    case TableChoice(t) => form.(table_id := t)
    case ReservationTime(t) => form.(reservation_time := t)
  }

  /** `Number(formData.table_id)`: the empty choice reads as 0. */
  function TableNumber(choice: Option<int>): (n: int)
    ensures choice.Some? ==> n == choice.value
    ensures choice.None? ==> n == 0
  {
    GetOr(choice, 0)
  }

  /** Whether the Cancel and Seat buttons are shown for a reservation. */
  predicate ActionsOffered(r: ReservationRow)
  {
    r.status == Confirmed
  }

  /** Once cancelled or seated, a reservation no longer offers either action; the others keep theirs. */
  lemma NoActionsAfterStatusChange(rows: seq<ReservationRow>, reservationId: Id, status: ReservationStatus)
    requires status != Confirmed
    ensures var r := SetReservationStatus(rows, reservationId, status);
      forall i :: 0 <= i < |rows| ==>
        (rows[i].id == reservationId ==> !ActionsOffered(r[i])) &&
        (rows[i].id != reservationId ==> ActionsOffered(r[i]) == ActionsOffered(rows[i]))
  {
  }

  class ReservationPage {
    var form: ReservationForm
    var showForm: bool
    var reservations: seq<ReservationRow>

    /** No handler ever changes the form's status. */
    ghost predicate Valid()
      reads this
    {
      form.status == Confirmed
    }

    constructor ()
      ensures Valid()
      ensures form == EmptyForm() && !showForm && reservations == []
    {
      form := EmptyForm();
      showForm := false;
      reservations := [];
    }

    method HandleInputChange(input: FormInput)
      requires Valid()
      modifies this`form
      ensures Valid()
      ensures form == WithInput(old(form), input)
    {
      form := WithInput(form, input);
    }

    /** `loadReservations`: the list is replaced only when the read succeeds. */
    method LoadReservations(store: Store, fails: bool)
      modifies this`reservations
      ensures reservations == if fails then old(reservations) else GetReservations(store.reservations)
    {
      if !fails {
        reservations := GetReservations(store.reservations);
      }
    }

    /**
     * `handleSubmit`: insert a reservation from the form with a numeric table id
     * and the form's status; on success hide and reset the form and reload the
     * list. A date that does not parse throws before anything is sent, and a
     * failure keeps the form as typed.
     */
    method HandleSubmit(store: Store, now: Time, failInsert: bool, failReload: bool)
      requires Valid()
      requires store.Valid()
      modifies this, store`reservations, store`nextId
      ensures store.Valid()
      ensures Valid()
      ensures var sent := old(form).reservation_time.Some? && !failInsert;
        var row := ReservationRow(old(store.nextId), old(form).customer_name, old(form).contact_info,
                                  Some(TableNumber(old(form).table_id)),
                                  GetOr(old(form).reservation_time, 0), Confirmed, now);
        (sent ==>
          store.reservations == old(store.reservations) + [row] && store.nextId == old(store.nextId) + 1 &&
          form == EmptyForm() && !showForm &&
          reservations == if failReload then old(reservations) else GetReservations(store.reservations)) &&
        (!sent ==>
          store.reservations == old(store.reservations) && store.nextId == old(store.nextId) &&
          form == old(form) && showForm == old(showForm) && reservations == old(reservations))
    {
      if form.reservation_time.None? {
        return;
      }
      var created := CreateReservation(store, form.customer_name, form.contact_info, Some(TableNumber(form.table_id)),
                                       form.reservation_time.value, form.status, now, failInsert);
      if created.None? {
        return;
      }
      showForm := false;
      form := EmptyForm();
      LoadReservations(store, failReload);
    }

    /** `handleCancel`: set the reservation `cancelled`, then reload the list. */
    method HandleCancel(store: Store, reservationId: Id, failUpdate: bool, failReload: bool)
      requires store.Valid()
      modifies this`reservations, store`reservations
      ensures store.Valid()
      ensures store.reservations == if failUpdate then old(store.reservations)
        else SetReservationStatus(old(store.reservations), reservationId, ReservationCancelled)
      ensures reservations == if failUpdate || failReload then old(reservations) else GetReservations(store.reservations)
    {
      var ok := UpdateReservationStatus(store, reservationId, ReservationCancelled, failUpdate);
      if ok {
        LoadReservations(store, failReload);
      }
    }

    /**
     * `handleSeated`: set the reservation `seated`, then create its order. If
     * the status update fails no order is created; if the order is not created
     * the reservation stays seated.
     */
    method HandleSeated(store: Store, reservationId: Id, failStatus: bool, failRead: bool, failInsert: bool,
                        failTable: bool, failReload: bool) returns (seated: Option<SeatResult>)
      requires store.Valid()
      modifies this`reservations, store`reservations, store`orders, store`nextId, store`tables
      ensures store.Valid()
      ensures failStatus ==> (seated.None? &&
        store.reservations == old(store.reservations) && store.orders == old(store.orders) &&
        store.tables == old(store.tables) && store.nextId == old(store.nextId) && reservations == old(reservations))
      ensures !failStatus ==> (seated.Some? &&
        store.reservations == SetReservationStatus(old(store.reservations), reservationId, Seated) &&
        SeatWrites(store.reservations, reservationId, failRead, failInsert, failTable,
                   old(store.orders), old(store.nextId), old(store.tables),
                   store.orders, store.nextId, store.tables, seated.value) &&
        reservations == if seated.value.Failed? || failReload then old(reservations) else GetReservations(store.reservations))
    {
      var ok := UpdateReservationStatus(store, reservationId, Seated, failStatus);
      if !ok {
        return None;
      }
      var result := CreateOrderFromReservation(store, reservationId, failRead, failInsert, failTable);
      seated := Some(result);
      if result.Created? {
        LoadReservations(store, failReload);
      }
    }
  }

  /**
   * Seating always reads the seated reservation itself: the status update
   * keeps its id and table, so the order is created for the reservation's own
   * table whenever exactly one reservation has the id.
   */
  lemma SeatingReadsOwnTable(rows: seq<ReservationRow>, reservationId: Id)
    requires Matches(rows, reservationId) == 1
    ensures var after := SetReservationStatus(rows, reservationId, Seated);
      Single(after, reservationId).Some? &&
      Single(after, reservationId).value.table_id == Single(rows, reservationId).value.table_id &&
      Single(after, reservationId).value.status == Seated
  {
    SeatingKeepsMatches(rows, reservationId);
    SeatingKeepsTheMatch(rows, reservationId);
  }

  lemma {:induction false} SeatingKeepsMatches(rows: seq<ReservationRow>, reservationId: Id)
    ensures Matches(SetReservationStatus(rows, reservationId, Seated), reservationId) == Matches(rows, reservationId)
  {
    if rows != [] {
      var after := SetReservationStatus(rows, reservationId, Seated);
      assert after[1..] == SetReservationStatus(rows[1..], reservationId, Seated);
      SeatingKeepsMatches(rows[1..], reservationId);
    }
  }

  lemma {:induction false} SeatingKeepsTheMatch(rows: seq<ReservationRow>, reservationId: Id)
    requires Matches(rows, reservationId) >= 1
    ensures Matches(SetReservationStatus(rows, reservationId, Seated), reservationId) >= 1
    ensures TheMatch(SetReservationStatus(rows, reservationId, Seated), reservationId) ==
      TheMatch(rows, reservationId).(status := Seated)
  {
    SeatingKeepsMatches(rows, reservationId);
    var after := SetReservationStatus(rows, reservationId, Seated);
    if rows[0].id != reservationId {
      assert after[1..] == SetReservationStatus(rows[1..], reservationId, Seated);
      SeatingKeepsTheMatch(rows[1..], reservationId);
    }
  }
}
