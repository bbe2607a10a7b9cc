/**
 * Event creation (src/pages/CreateEvent.jsx): insert the event, fetch the
 * seats of the chosen hall, and insert one default ticket per seat. Each
 * back-end reply is a parameter; each step can end the handler early.
 */
module CreateEvent {
  import opened Js

  /** A row returned by the event insert; only its id is read. */
  datatype EventRecord = EventRecord(event_id: int)

  /** A row of the seat query `select("seat_id, seat_position")`. */
  datatype SeatRow = SeatRow(seat_id: int, seat_position: string)

  /** One row of the `tickets` insert; `None` stands for `null`. */
  datatype Ticket = Ticket(
    seat_id: int,
    hall_id: int,
    event_id: int,
    availability: bool,
    selected: bool,
    price: int,
    bought_at: Option<string>,
    reserved_at: Option<string>,
    reserved: bool,
    interaction_made_by_user: Option<string>)

  /** The price every new ticket starts at. */
  const DefaultPrice := 10

  /** The state every ticket is created in: free, unselected, unreserved, never bought or touched. */
  predicate IsFreshTicket(t: Ticket)
  {
    t.availability && !t.selected && !t.reserved && t.price == DefaultPrice &&
    t.bought_at == None && t.reserved_at == None && t.interaction_made_by_user == None
  }

  function NewTicket(seat: SeatRow, hallId: int, eventId: int): Ticket
  {
    Ticket(seat.seat_id, hallId, eventId, true, false, DefaultPrice, None, None, false, None)
  }

  /**
   * `seats.map(...)`: one ticket per fetched seat, in the seats' order,
   * each for its seat, the chosen hall and the new event, in the fresh state.
   */
  function TicketInserts(seats: seq<SeatRow>, hallId: int, eventId: int): (tickets: seq<Ticket>)
    ensures |tickets| == |seats|
    ensures forall i :: 0 <= i < |tickets| ==>
              tickets[i].seat_id == seats[i].seat_id &&
              tickets[i].hall_id == hallId &&
              tickets[i].event_id == eventId &&
              IsFreshTicket(tickets[i])
  {
    if seats == [] then []
    else [NewTicket(seats[0], hallId, eventId)] + TicketInserts(seats[1..], hallId, eventId)
  }

  function SeatIds(seats: seq<SeatRow>): seq<int>
  {
    seq(|seats|, i requires 0 <= i < |seats| => seats[i].seat_id)
  }

  function TicketSeatIds(tickets: seq<Ticket>): seq<int>
  {
    seq(|tickets|, i requires 0 <= i < |tickets| => tickets[i].seat_id)
  }

  /**
   * The tickets name the same seats, in the same order, as the seat list
   * they were built from; so distinct seats give distinct tickets.
   */
  lemma TicketsCoverSeats(seats: seq<SeatRow>, hallId: int, eventId: int)
    ensures TicketSeatIds(TicketInserts(seats, hallId, eventId)) == SeatIds(seats)
    ensures (forall i, j :: 0 <= i < j < |seats| ==> seats[i].seat_id != seats[j].seat_id) ==>
              (forall i, j :: 0 <= i < j < |seats| ==>
                 TicketInserts(seats, hallId, eventId)[i] != TicketInserts(seats, hallId, eventId)[j])
  {
  }

  // ---------------------------------------------------------------------
  // handleSubmit
  // ---------------------------------------------------------------------

  /** An error object; only its `message` is read. */
  datatype BackendError = BackendError(message: string)

  /**
   * How an awaited back-end call ended: resolved with `{ data, error }`
   * (either may be `null`), or threw.
   */
  datatype Reply<T> = Resolved(data: Option<T>, error: Option<BackendError>) | Threw(thrown: BackendError)

  /** The row handed to the `event` insert. */
  datatype EventInsert = EventInsert(title: string, date: string, hall_id: int)

  /** The back-end calls the handler makes, in order. */
  datatype Request =
    | InsertEvent(event: EventInsert)
    | FetchSeats(hall_id: int)
    | InsertTickets(tickets: seq<Ticket>)

  /** What one submit does: the calls it makes, the one alert it shows, where it navigates. */
  datatype CreateEffects = CreateEffects(requests: seq<Request>, alert: string, navigateTo: Option<string>)

  /** A step's outcome: the value it passes on, or the message of the error it throws. */
  datatype Result<T> = Success(value: T) | Failure(message: string)

  const SuccessAlert := "Event created and tickets populated!"
  const ErrorAlertPrefix := "Error creating event or tickets: "
  const NoEventDataMessage := "Event data is null or undefined"
  const NoSeatsMessage := "No seats found for the selected hall"
  const HomepageRoute := "/homepage"

  /**
   * What a step that reads a list makes of its reply: the list, or the
   * message of the error it throws (the thrown error, the reply's own
   * error, or `emptyMessage` for a null or empty list).
   */
  function ListStep<T>(reply: Reply<seq<T>>, emptyMessage: string): Result<seq<T>>
  {
    match reply
    case Threw(e) => Failure(e.message)
    case Resolved(data, error) =>
      if error.Some? then Failure(error.value.message)
      else if data.None? || |data.value| == 0 then Failure(emptyMessage)
      else Success(data.value)
  }

  /** What the ticket insert makes of its reply: `None`, or the message of the error it throws. */
  function WriteStep(reply: Reply<()>): Option<string>
  {
    match reply
    case Threw(e) => Some(e.message)
    case Resolved(_, error) => if error.Some? then Some(error.value.message) else None
  }

  /** The alert of the `catch` block. */
  function ErrorAlert(message: string): string
  {
    ErrorAlertPrefix + message
  }

  /**
   * The submit handler: three steps, each either feeding the next or
   * throwing into the one `catch`, which alerts and stays on the page.
   */
  method HandleSubmit(eventName: string, eventDate: string, selectedHall: int,
                      eventReply: Reply<seq<EventRecord>>,
                      seatsReply: Reply<seq<SeatRow>>,
                      ticketsReply: Reply<()>)
    returns (fx: CreateEffects)
    ensures 1 <= |fx.requests| <= 3
    ensures fx.requests[0] == InsertEvent(EventInsert(eventName, eventDate, selectedHall))
    // step 1 fails: nothing else is requested
    ensures ListStep(eventReply, NoEventDataMessage).Failure? ==>
              |fx.requests| == 1 &&
              fx.alert == ErrorAlert(ListStep(eventReply, NoEventDataMessage).message) &&
              fx.navigateTo == None
    // step 1 succeeds: the hall's seats are fetched next
    ensures ListStep(eventReply, NoEventDataMessage).Success? ==>
              |fx.requests| >= 2 && fx.requests[1] == FetchSeats(selectedHall)
    // step 2 fails: no tickets are inserted
    ensures ListStep(eventReply, NoEventDataMessage).Success? && ListStep(seatsReply, NoSeatsMessage).Failure? ==>
              |fx.requests| == 2 &&
              fx.alert == ErrorAlert(ListStep(seatsReply, NoSeatsMessage).message) &&
              fx.navigateTo == None
    ensures ListStep(eventReply, NoEventDataMessage).Success? && seatsReply == Resolved(Some([]), None) ==>
              fx.alert == ErrorAlert(NoSeatsMessage)
    // both succeed: one ticket per seat, for the first inserted event
    ensures ListStep(eventReply, NoEventDataMessage).Success? && ListStep(seatsReply, NoSeatsMessage).Success? ==>
              |fx.requests| == 3 &&
              fx.requests[2] == InsertTickets(TicketInserts(ListStep(seatsReply, NoSeatsMessage).value, selectedHall,
                                                            ListStep(eventReply, NoEventDataMessage).value[0].event_id))
    // step 3 decides between the two alerts
    ensures |fx.requests| == 3 && WriteStep(ticketsReply).Some? ==>
              fx.alert == ErrorAlert(WriteStep(ticketsReply).value) && fx.navigateTo == None
    ensures fx.navigateTo.Some? <==>
              ListStep(eventReply, NoEventDataMessage).Success? &&
              ListStep(seatsReply, NoSeatsMessage).Success? &&
              WriteStep(ticketsReply).None?
    ensures fx.navigateTo.Some? ==> fx.navigateTo == Some(HomepageRoute) && fx.alert == SuccessAlert
    ensures fx.navigateTo.None? ==> |fx.alert| >= |ErrorAlertPrefix| && fx.alert[..|ErrorAlertPrefix|] == ErrorAlertPrefix
  {
    var requests := [InsertEvent(EventInsert(eventName, eventDate, selectedHall))];

    // Step 1: insert the event and read back the inserted row.
    var eventData: seq<EventRecord>;
    match eventReply {
      case Threw(e) =>
        return CreateEffects(requests, ErrorAlert(e.message), None);
      case Resolved(data, eventError) =>
        if eventError.Some? {
          return CreateEffects(requests, ErrorAlert(eventError.value.message), None);
        }
        if data.None? || |data.value| == 0 {
          return CreateEffects(requests, ErrorAlert(NoEventDataMessage), None);
        }
        eventData := data.value;
    }
    var eventId := eventData[0].event_id;

    // Step 2: fetch the seats of the chosen hall.
    requests := requests + [FetchSeats(selectedHall)];
    var seats: seq<SeatRow>;
    match seatsReply {
      case Threw(e) =>
        return CreateEffects(requests, ErrorAlert(e.message), None);
      case Resolved(data, seatsError) =>
        if seatsError.Some? {
          return CreateEffects(requests, ErrorAlert(seatsError.value.message), None);
        }
        if data.None? || |data.value| == 0 {
          return CreateEffects(requests, ErrorAlert(NoSeatsMessage), None);
        }
        seats := data.value;
    }

    // Step 3: insert one ticket per seat.
    var ticketInserts := TicketInserts(seats, selectedHall, eventId);
    requests := requests + [InsertTickets(ticketInserts)];
    match ticketsReply {
      case Threw(e) =>
        return CreateEffects(requests, ErrorAlert(e.message), None);
      case Resolved(_, ticketError) =>
        if ticketError.Some? {
          return CreateEffects(requests, ErrorAlert(ticketError.value.message), None);
        }
    }
    fx := CreateEffects(requests, SuccessAlert, Some(HomepageRoute));
  }
}
