/** The calendar HTTP handlers (Go `handler.Handler`, calendar half). Each
    handler turns its collaborators' answers into a status, a body and
    headers; the use case and the JSON codec are parameters. */
module CalendarHandler {
  import opened Wrappers
  import opened Models
  import opened Http

  /** HandleGetCalendar: 500 when the lookup or the encoding fails, otherwise
      200 with the encoded calendar (a nil calendar encodes as JSON `null`). */
  function HandleGetCalendar(req: Request, findCalendar: string -> Fetched<Calendar>,
                             marshal: Option<Calendar> -> Result<string>): (r: Response)
    ensures r.status == 200 || r.status == 500
    ensures r.headers == map[]
    ensures var found := findCalendar(PathParameter(req, "calendarId"));
      && (found.Failed? ==> r == Plain(500, "Error finding calendar: " + found.error.message))
      && (r.status == 200 <==> !found.Failed? && marshal(found.Pointer()).Ok?)
      && (r.status == 200 ==> r.body == marshal(found.Pointer()).value)
  {
    var calendarID := PathParameter(req, "calendarId");
    match findCalendar(calendarID)
    case Failed(e) => Plain(500, "Error finding calendar: " + e.message)
    case _ =>
      match marshal(findCalendar(calendarID).Pointer())
      case Err(e) => Plain(500, "Error marshalling response: " + e.message)
      case Ok(body) => Plain(200, body)
  }

  /** HandleGetCalendars: the calendars of the `userId` path parameter. */
  function HandleGetCalendars(req: Request, findCalendars: string -> Result<seq<Calendar>>,
                              marshal: seq<Calendar> -> Result<string>): (r: Response)
    ensures r.status == 200 || r.status == 500
    ensures r.headers == map[]
    ensures var found := findCalendars(PathParameter(req, "userId"));
      && (found.Err? ==> r == Plain(500, "Error finding calendars: " + found.error.message))
      && (r.status == 200 <==> found.Ok? && marshal(found.value).Ok?)
      && (r.status == 200 ==> r.body == marshal(found.value).value)
  {
    match findCalendars(PathParameter(req, "userId"))
    case Err(e) => Plain(500, "Error finding calendars: " + e.message)
    case Ok(calendars) =>
      match marshal(calendars)
      case Err(e) => Plain(500, "Error marshalling response: " + e.message)
      case Ok(body) => Plain(200, body)
  }

  /** HandleCreateCalendar: rejects an undecodable body, an empty name and an
      absent `isPublic` with 400 before the use case is reached; otherwise the
      `userId` path parameter becomes the owner and sole member, the use case
      is called with that calendar, and its answer gives 500 or 201. */
  method HandleCreateCalendar(req: Request, unmarshal: string -> Result<Calendar>,
                              createCalendar: Calendar -> Outcome)
    returns (r: Traced<Response, Calendar>)
    ensures r.result.headers == map[]
    ensures r.call.None? <==> r.result.status == 400
    ensures r.call.Some? <==> unmarshal(req.body).Ok? && unmarshal(req.body).value.name != ""
                              && unmarshal(req.body).value.isPublic.Some?
    ensures unmarshal(req.body).Err? ==> r.result.body == "Invalid request payload: " + unmarshal(req.body).error.message
    ensures r.call.Some? ==>
      var decoded, sent, userID := unmarshal(req.body).value, r.call.value, PathParameter(req, "userId");
      && sent.ownerUserID == userID
      && sent.users == [OwnerMember(userID, "Owner")]
      && sent == decoded.(ownerUserID := sent.ownerUserID, users := sent.users)
      && (r.result.status == 201 <==> createCalendar(sent).Pass?)
      && (r.result.status == 500 <==> createCalendar(sent).Fail?)
  {
    var decoded := unmarshal(req.body);
    if decoded.Err? {
      return Traced(Plain(400, "Invalid request payload: " + decoded.error.message), None);
    }
    var calendar := decoded.value;
    if calendar.name == "" || calendar.isPublic.None? {
      return Traced(Plain(400, "Missing required fields: name or isPublic"), None);
    }
    var userID := PathParameter(req, "userId");
    calendar := calendar.(ownerUserID := userID);

    var user := OwnerMember(userID, "Owner");
    calendar := calendar.(users := [user]);

    var err := createCalendar(calendar);
    if err.Fail? {
      return Traced(Plain(500, "Error saving calendar: " + err.error.message), Some(calendar));
    }
    return Traced(Plain(201, "{\"message\":\"Calendar created successfully.\"}"), Some(calendar));
  }

  /** HandleEditCalendar: the `calendarId` path parameter replaces the body's
      calendar ID; a failed lookup gives 404 and no edit; otherwise the edit
      is made (with whatever the lookup returned, nil included) and its answer
      gives 500 or 200. */
  method HandleEditCalendar(req: Request, unmarshal: string -> Result<Calendar>,
                            findCalendar: string -> Fetched<Calendar>,
                            editCalendar: (Option<Calendar>, Calendar) -> Outcome)
    returns (r: Traced<Response, (Option<Calendar>, Calendar)>)
    ensures r.result.headers == map[]
    ensures unmarshal(req.body).Err? ==>
      r == Traced(Plain(400, "Invalid request payload" + unmarshal(req.body).error.message), None)
    ensures unmarshal(req.body).Ok? ==>
      var calendarID := PathParameter(req, "calendarId");
      var input := unmarshal(req.body).value.(calendarID := calendarID);
      var found := findCalendar(calendarID);
      && (found.Failed? ==> r == Traced(Plain(404, "Calendar not found"), None))
      && (!found.Failed? ==> r.call == Some((found.Pointer(), input)))
      && (!found.Failed? ==> (r.result.status == 200 <==> editCalendar(found.Pointer(), input).Pass?))
      && (!found.Failed? ==> (r.result.status == 500 <==> editCalendar(found.Pointer(), input).Fail?))
  {
    var decoded := unmarshal(req.body);
    if decoded.Err? {
      return Traced(Plain(400, "Invalid request payload" + decoded.error.message), None);
    }
    var input := decoded.value;
    var calendarID := PathParameter(req, "calendarId");
    input := input.(calendarID := calendarID);

    var found := findCalendar(input.calendarID);
    if found.Failed? {
      return Traced(Plain(404, "Calendar not found"), None);
    }
    var calendar := found.Pointer();

    var err := editCalendar(calendar, input);
    if err.Fail? {
      return Traced(Plain(500, "Failed to edit calendar"), Some((calendar, input)));
    }
    return Traced(Plain(200, "{\"message\":\"Calendar edited successfully.\"}"), Some((calendar, input)));
  }

  /** HandleDeleteCalendar: deletes the `calendarId` path parameter's calendar. */
  function HandleDeleteCalendar(req: Request, deleteCalendar: string -> Outcome): (r: Response)
    ensures r.headers == map[]
    ensures r.status == 200 <==> deleteCalendar(PathParameter(req, "calendarId")).Pass?
    ensures r.status == 500 <==> deleteCalendar(PathParameter(req, "calendarId")).Fail?
  {
    match deleteCalendar(PathParameter(req, "calendarId"))
    case Fail(_) => Plain(500, "Failed to delete calendar")
    case Pass => Plain(200, "{\"message\":\"Calendar deleted successfully.\"}")
  }
}
