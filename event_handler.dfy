/** The event HTTP handlers (Go `handler.Handler`, event half). Every success
    carries the CORS headers; every failure carries none. */
module EventHandler {
  import opened Wrappers
  import opened Models
  import opened Http

  /** The body of `HandleDeleteEvent`'s request. */
  datatype DeleteEventRequest = DeleteEventRequest(eventId: string, calendarId: string)

  function Success(status: int, body: string): (r: Response) {
    Response(status, body, CorsHeaders)
  }

  /** HandleCreateEvent: 400 for an undecodable body (before any lookup), 500
      when the calendar lookup fails, 404 when it finds no calendar; only an
      existing calendar reaches `createEvent`, whose answer gives 500 or 201. */
  function HandleCreateEvent(req: Request, unmarshal: string -> Result<Event>,
                             findCalendar: string -> Fetched<Calendar>,
                             createEvent: (Calendar, Event) -> Outcome)
    : (r: Traced<Response, (Calendar, Event)>)
    ensures 200 <= r.result.status < 300 <==> r.result.headers == CorsHeaders
    ensures unmarshal(req.body).Err? ==>
      r == Traced(Plain(400, "Error unmarshalling request: " + unmarshal(req.body).error.message), None)
    ensures unmarshal(req.body).Ok? ==>
      var found := findCalendar(PathParameter(req, "calendarId"));
      && (found.Failed? ==> r == Traced(Plain(500, "Error finding calendar: " + found.error.message), None))
      && (found.Missing? ==> r == Traced(Plain(404, "Calendar not found"), None))
      && (found.Found? ==> r.call == Some((found.value, unmarshal(req.body).value)))
    ensures r.call.Some? ==> (r.result.status == 201 <==> createEvent(r.call.value.0, r.call.value.1).Pass?)
    ensures r.call.Some? ==> (r.result.status == 500 <==> createEvent(r.call.value.0, r.call.value.1).Fail?)
  {
    match unmarshal(req.body)
    case Err(e) => Traced(Plain(400, "Error unmarshalling request: " + e.message), None)
    case Ok(event) =>
      match findCalendar(PathParameter(req, "calendarId"))
      case Failed(e) => Traced(Plain(500, "Error finding calendar: " + e.message), None)
      case Missing => Traced(Plain(404, "Calendar not found"), None)
      case Found(calendar) =>
        var call := Some((calendar, event));
        match createEvent(calendar, event)
        case Fail(e) => Traced(Plain(500, "Error creating event: " + e.message), call)
        case Pass => Traced(Success(201, "{\"message\":\"Event created successfully.\"}"), call)
  }

  /** HandleEditEvent: 400 for an undecodable body; otherwise the edit is made
      for the `calendarId` path parameter, and the updated event, encoded, is
      the body of the 200. */
  function HandleEditEvent(req: Request, unmarshal: string -> Result<Event>,
                           editEvent: (string, Event) -> Fetched<Event>,
                           marshal: Option<Event> -> Result<string>)
    : (r: Traced<Response, (string, Event)>)
    ensures 200 <= r.result.status < 300 <==> r.result.headers == CorsHeaders
    ensures r.call.None? <==> unmarshal(req.body).Err?
    ensures r.call.None? ==> r.result == Plain(400, "Error unmarshalling request: " + unmarshal(req.body).error.message)
    ensures r.call.Some? ==>
      var sent := (PathParameter(req, "calendarId"), unmarshal(req.body).value);
      var edited := editEvent(sent.0, sent.1);
      && r.call.value == sent
      && (edited.Failed? ==> r.result == Plain(500, "Error editing event: " + edited.error.message))
      && (r.result.status == 200 <==> !edited.Failed? && marshal(edited.Pointer()).Ok?)
      && (r.result.status == 200 ==> r.result.body == marshal(edited.Pointer()).value)
      && (r.result.status == 200 || r.result.status == 500)
  {
    match unmarshal(req.body)
    case Err(e) => Traced(Plain(400, "Error unmarshalling request: " + e.message), None)
    case Ok(event) =>
      var calendarID := PathParameter(req, "calendarId");
      var call := Some((calendarID, event));
      match editEvent(calendarID, event)
      case Failed(e) => Traced(Plain(500, "Error editing event: " + e.message), call)
      case _ =>
        match marshal(editEvent(calendarID, event).Pointer())
        case Err(e) => Traced(Plain(500, "Error marshalling response: " + e.message), call)
        case Ok(body) => Traced(Success(200, body), call)
  }

  /** HandleGetEventList: the events of the `calendarId` path parameter. */
  function HandleGetEventList(req: Request, findEvents: string -> Result<seq<Event>>,
                              marshal: seq<Event> -> Result<string>): (r: Response)
    ensures 200 <= r.status < 300 <==> r.headers == CorsHeaders
    ensures r.status == 200 || r.status == 500
    ensures var found := findEvents(PathParameter(req, "calendarId"));
      && (found.Err? ==> r == Plain(500, "Error finding calendar: " + found.error.message))
      && (r.status == 200 <==> found.Ok? && marshal(found.value).Ok?)
      && (r.status == 200 ==> r.body == marshal(found.value).value)
  {
    match findEvents(PathParameter(req, "calendarId"))
    case Err(e) => Plain(500, "Error finding calendar: " + e.message)
    case Ok(eventList) =>
      match marshal(eventList)
      case Err(e) => Plain(500, "Error marshalling response: " + e.message)
      case Ok(body) => Success(200, body)
  }

  /** HandleDeleteEvent: both identifiers come from the request body, none from
      the path. */
  function HandleDeleteEvent(req: Request, unmarshal: string -> Result<DeleteEventRequest>,
                             deleteEvent: (string, string) -> Outcome)
    : (r: Traced<Response, (string, string)>)
    ensures 200 <= r.result.status < 300 <==> r.result.headers == CorsHeaders
    ensures r.call.None? <==> unmarshal(req.body).Err?
    ensures r.call.None? ==> r.result == Plain(400, "Invalid request payload: " + unmarshal(req.body).error.message)
    ensures r.call.Some? ==> r.call.value == (unmarshal(req.body).value.calendarId, unmarshal(req.body).value.eventId)
    ensures r.call.Some? ==> (r.result.status == 200 <==> deleteEvent(r.call.value.0, r.call.value.1).Pass?)
    ensures r.call.Some? ==> (r.result.status == 500 <==> deleteEvent(r.call.value.0, r.call.value.1).Fail?)
  {
    match unmarshal(req.body)
    case Err(e) => Traced(Plain(400, "Invalid request payload: " + e.message), None)
    case Ok(body) =>
      var call := Some((body.calendarId, body.eventId));
      match deleteEvent(body.calendarId, body.eventId)
      case Fail(e) => Traced(Plain(500, "Error deleting event: " + e.message), call)
      case Pass => Traced(Success(200, "{\"message\":\"Event deleted successfully.\"}"), call)
  }

  /** The path parameters play no part in deleting an event. */
  lemma DeleteEventIgnoresPath(req: Request, unmarshal: string -> Result<DeleteEventRequest>,
                               deleteEvent: (string, string) -> Outcome, pathParameters: map<string, string>)
    ensures HandleDeleteEvent(req.(pathParameters := pathParameters), unmarshal, deleteEvent)
         == HandleDeleteEvent(req, unmarshal, deleteEvent)
  {
  }
}
