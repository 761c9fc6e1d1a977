/** The records the service passes between its layers (Go package `models`).
    The Go declarations themselves are not part of this model; the fields below
    are the ones the modelled code reads and writes. */
module Models {
  import opened Wrappers

  /** Access level given to the creator of a calendar. */
  const OwnerAccess := "OWNER"

  /** Sort key of the row that holds a calendar aggregate. */
  const CalendarSortKey := "CALENDAR"

  datatype User = User(
    userID: string,
    displayName: string,
    email: string,
    password: string,
    accessLevel: string)

  /** One event. Besides the two identifiers, the content fields stand for the
      flat field set of the Go struct. */
  datatype Event = Event(
    eventID: string,
    calendarID: string,
    title: string,
    startTime: string,
    endTime: string)

  /** `models.Calendar`. `isPublic` is a `*bool`: `None` is an absent flag,
      distinct from an explicit `false`. */
  datatype Calendar = Calendar(
    calendarID: string,
    sortKey: string,
    name: string,
    isPublic: Option<bool>,
    ownerUserID: string,
    users: seq<User>,
    events: seq<Event>)

  /** `models.CreateCalendar`: the calendar fields plus the owner's display name. */
  datatype CreateCalendar = CreateCalendar(
    calendarID: string,
    name: string,
    isPublic: Option<bool>,
    ownerUserID: string,
    ownerName: string,
    users: seq<User>,
    events: seq<Event>)

  /** A Go pointer `*T` whose target a callee may overwrite in place. */
  class Ref<T> {
    var value: T

    constructor (v: T)
      ensures value == v
    {
      value := v;
    }
  }

  /** The single owner member written into a new calendar: the e-mail address
      and password are fixed placeholders derived from the user ID. */
  function OwnerMember(userID: string, displayName: string): (u: User)
    ensures u.userID == userID && u.displayName == displayName
    ensures u.accessLevel == OwnerAccess
    ensures u.email == userID + "@example.com"
  {
    User(userID, displayName, userID + "@example.com", "password", OwnerAccess)
  }
}
