/** The calendar use case (Go `usecase.calendarUsecase`). Its two collaborators,
    the calendar repository and the user repository, are records of functions
    giving their answers; the UUID generator is an object that never issues
    the same identifier twice. */
module Usecase {
  import opened Wrappers
  import opened Models

  /** The calendar repository, with the signatures the use case calls it with. */
  datatype CalendarRepository = CalendarRepository(
    findByCalendarID: string -> Fetched<Calendar>,
    findByUserID: string -> Result<seq<Calendar>>,
    findAllCalendars: Result<seq<Calendar>>,
    create: Calendar -> Outcome,
    edit: (Option<Calendar>, Calendar) -> Outcome,
    delete: string -> Outcome,
    followCalendar: (Calendar, User) -> Outcome,
    unfollowCalendar: (Calendar, User) -> Outcome)

  datatype UserRepository = UserRepository(findByUserID: string -> Fetched<User>)

  const UserNotFound := Error("user not found")

  /** `uuid.New()`: each call returns an identifier never returned before. */
  class UuidGenerator {
    var issued: set<string>

    constructor ()
      ensures issued == {}
    {
      issued := {};
    }

    method New() returns (id: string)
      modifies this
      ensures id !in old(issued)
      ensures issued == old(issued) + {id}
    {
      ghost var n := LongerThanAll(issued);
      ghost var unused := seq(n, _ => 'u');
      assert unused !in issued;
      id :| id !in issued;
      issued := issued + {id};
    }
  }

  /** Some length exceeds that of every string in a finite set. */
  lemma {:induction false} LongerThanAll(s: set<string>) returns (n: nat)
    ensures forall x :: x in s ==> |x| < n
    decreases |s|
  {
    if s == {} {
      return 0;
    }
    var y :| y in s;
    var m := LongerThanAll(s - {y});
    n := if |y| < m then m else |y| + 1;
  }

  function FindCalendar(repo: CalendarRepository, calendarID: string): (r: Fetched<Calendar>)
    ensures r == repo.findByCalendarID(calendarID)
  {
    repo.findByCalendarID(calendarID)
  }

  function EditCalendar(repo: CalendarRepository, calendar: Option<Calendar>, input: Calendar): (r: Outcome)
    ensures r == repo.edit(calendar, input)
  {
    repo.edit(calendar, input)
  }

  function DeleteCalendar(repo: CalendarRepository, calendarID: string): (r: Outcome)
    ensures r == repo.delete(calendarID)
  {
    repo.delete(calendarID)
  }

  function FindCalendars(repo: CalendarRepository, userID: string): (r: Result<seq<Calendar>>)
    ensures r == repo.findByUserID(userID)
  {
    repo.findByUserID(userID)
  }

  /** The public calendars of a list, in their original order. */
  function PublicOnly(calendars: seq<Calendar>): (r: seq<Calendar>)
    requires forall c :: c in calendars ==> c.isPublic.Some?
  {
    if calendars == [] then []
    else
      var rest := PublicOnly(calendars[1..]);
      if calendars[0].isPublic.value then [calendars[0]] + rest else rest
  }

  lemma {:induction false} PublicOnlyMembers(calendars: seq<Calendar>, c: Calendar)
    requires forall d :: d in calendars ==> d.isPublic.Some?
    ensures c in PublicOnly(calendars) <==> c in calendars && c.isPublic == Some(true)
  {
    if calendars != [] {
      PublicOnlyMembers(calendars[1..], c);
      assert calendars == [calendars[0]] + calendars[1..];
    }
  }

  /** Filtering distributes over concatenation, so the relative order of the
      public calendars is kept. */
  lemma {:induction false} PublicOnlyAppend(a: seq<Calendar>, b: seq<Calendar>)
    requires forall c :: c in a ==> c.isPublic.Some?
    requires forall c :: c in b ==> c.isPublic.Some?
    ensures PublicOnly(a + b) == PublicOnly(a) + PublicOnly(b)
  {
    if a != [] {
      assert (a + b)[0] == a[0] && (a + b)[1..] == a[1..] + b;
      PublicOnlyAppend(a[1..], b);
    } else {
      assert a + b == b;
    }
  }

  lemma {:induction false} PublicOnlyIdempotent(calendars: seq<Calendar>)
    requires forall c :: c in calendars ==> c.isPublic.Some?
    ensures forall c :: c in PublicOnly(calendars) ==> c.isPublic.Some?
    ensures PublicOnly(PublicOnly(calendars)) == PublicOnly(calendars)
  {
    if calendars != [] {
      PublicOnlyIdempotent(calendars[1..]);
      forall c | c in PublicOnly(calendars)
        ensures c.isPublic.Some?
      {
        PublicOnlyMembers(calendars, c);
      }
    }
  }

  /** FindPublicCalendars: loads every calendar and keeps the public ones. A
      load error is returned as is. Every calendar must carry its `IsPublic`
      flag: the Go code dereferences it. */
  method FindPublicCalendars(repo: CalendarRepository) returns (r: Result<seq<Calendar>>)
    requires repo.findAllCalendars.Ok? ==> forall c :: c in repo.findAllCalendars.value ==> c.isPublic.Some?
    ensures repo.findAllCalendars.Err? ==> r == Err(repo.findAllCalendars.error)
    ensures repo.findAllCalendars.Ok? ==> r == Ok(PublicOnly(repo.findAllCalendars.value))
  {
    var all := repo.findAllCalendars;
    if all.Err? {
      return Err(all.error);
    }
    var calendars := all.value;
    var publicCalendars: seq<Calendar> := [];
    for i := 0 to |calendars|
      invariant publicCalendars == PublicOnly(calendars[..i])
    {
      var calendar := calendars[i];
      PublicOnlyAppend(calendars[..i], [calendar]);
      assert calendars[..i + 1] == calendars[..i] + [calendar];
      if calendar.isPublic.value {
        publicCalendars := publicCalendars + [calendar];
      }
    }
    assert calendars[..|calendars|] == calendars;
    return Ok(publicCalendars);
  }

  /** The record `CreateCalendar` hands to the repository. */
  function CalendarRecord(req: CreateCalendar): (c: Calendar)
    ensures c.calendarID == req.calendarID && c.sortKey == CalendarSortKey
    ensures c.name == req.name && c.isPublic == req.isPublic && c.ownerUserID == req.ownerUserID
    ensures c.users == req.users && c.events == req.events
  {
    Calendar(req.calendarID, CalendarSortKey, req.name, req.isPublic, req.ownerUserID, req.users, req.events)
  }

  /** CreateCalendar: fills in a missing owner name from the user repository
      (a lookup error aborts before anything is changed), makes the owner the
      one and only member, gives the request a new calendar ID and writes the
      resulting calendar. `record` is what was passed to the repository. The
      Go code dereferences the looked-up user without a nil check, so a lookup
      that finds nobody is excluded. */
  method CreateCalendar(users: UserRepository, repo: CalendarRepository, ids: UuidGenerator, req: Ref<CreateCalendar>)
    returns (err: Outcome, record: Option<Calendar>)
    requires req.value.ownerName == "" ==> !users.findByUserID(req.value.ownerUserID).Missing?
    modifies ids, req
    ensures var lookup := users.findByUserID(old(req.value.ownerUserID));
      old(req.value.ownerName) == "" && lookup.Failed? ==>
        && err == Fail(lookup.error) && record == None
        && req.value == old(req.value) && ids.issued == old(ids.issued)
    ensures record.Some? ==>
      var ownerName := if old(req.value.ownerName) == "" then users.findByUserID(old(req.value.ownerUserID)).value.displayName
                       else old(req.value.ownerName);
      && req.value == old(req.value).(ownerName := ownerName,
                                      users := [OwnerMember(old(req.value.ownerUserID), ownerName)],
                                      calendarID := record.value.calendarID)
      && record.value == CalendarRecord(req.value)
      && record.value.calendarID !in old(ids.issued)
      && ids.issued == old(ids.issued) + {record.value.calendarID}
      && err == repo.create(record.value)
    ensures record.None? <==> old(req.value.ownerName) == "" && users.findByUserID(old(req.value.ownerUserID)).Failed?
  {
    if req.value.ownerName == "" {
      var user := users.findByUserID(req.value.ownerUserID);
      if user.Failed? {
        return Fail(user.error), None;
      }
      req.value := req.value.(ownerName := user.value.displayName);
    }
    var owner := OwnerMember(req.value.ownerUserID, req.value.ownerName);
    req.value := req.value.(users := [owner]);

    var id := ids.New();
    req.value := req.value.(calendarID := id);

    var calendarReq := CalendarRecord(req.value);
    err := repo.create(calendarReq);
    record := Some(calendarReq);
  }

  /** A calendar created by `CreateCalendar` has exactly one member, the
      owner, with access level OWNER. */
  lemma CreatedCalendarHasSoleOwner(req: CreateCalendar, ownerName: string, id: string)
    ensures var c := CalendarRecord(req.(ownerName := ownerName, users := [OwnerMember(req.ownerUserID, ownerName)], calendarID := id));
      && |c.users| == 1
      && (forall u :: u in c.users ==> u.userID == c.ownerUserID && u.accessLevel == OwnerAccess)
      && c.calendarID == id && c.sortKey == CalendarSortKey
  {
  }

  /** The user guard shared by follow and unfollow. */
  function ResolveUser(users: UserRepository, userID: string): (r: Result<User>)
    ensures users.findByUserID(userID).Failed? ==> r == Err(users.findByUserID(userID).error)
    ensures users.findByUserID(userID).Missing? ==> r == Err(UserNotFound)
    ensures r.Ok? <==> users.findByUserID(userID).Found?
    ensures r.Ok? ==> r.value == users.findByUserID(userID).value
  {
    match users.findByUserID(userID)
    case Failed(e) => Err(e)
    case Missing => Err(UserNotFound)
    case Found(u) => Ok(u)
  }

  /** FollowCalendar: the repository is called, with the looked-up user, exactly
      when that user exists; the calendar's visibility plays no part. */
  function FollowCalendar(users: UserRepository, repo: CalendarRepository, calendar: Calendar, userID: string)
    : (r: Traced<Outcome, (Calendar, User)>)
    ensures r.call.Some? <==> users.findByUserID(userID).Found?
    ensures r.call.Some? ==> r.call.value == (calendar, users.findByUserID(userID).value)
                             && r.result == repo.followCalendar(calendar, users.findByUserID(userID).value)
    ensures r.call.None? ==> r.result == Fail(ResolveUser(users, userID).error)
  {
    match ResolveUser(users, userID)
    case Err(e) => Traced(Fail(e), None)
    case Ok(user) => Traced(repo.followCalendar(calendar, user), Some((calendar, user)))
  }

  /** UnfollowCalendar: the same user guard, then the repository's unfollow. */
  function UnfollowCalendar(users: UserRepository, repo: CalendarRepository, calendar: Calendar, userID: string)
    : (r: Traced<Outcome, (Calendar, User)>)
    ensures r.call.Some? <==> users.findByUserID(userID).Found?
    ensures r.call.Some? ==> r.call.value == (calendar, users.findByUserID(userID).value)
                             && r.result == repo.unfollowCalendar(calendar, users.findByUserID(userID).value)
    ensures r.call.None? ==> r.result == Fail(ResolveUser(users, userID).error)
  {
    match ResolveUser(users, userID)
    case Err(e) => Traced(Fail(e), None)
    case Ok(user) => Traced(repo.unfollowCalendar(calendar, user), Some((calendar, user)))
  }

  /** Following does not look at `IsPublic`: a private and a public copy of a
      calendar are followed alike. */
  lemma FollowIgnoresVisibility(users: UserRepository, repo: CalendarRepository, calendar: Calendar, userID: string, b: Option<bool>)
    ensures FollowCalendar(users, repo, calendar, userID).call.Some?
        <==> FollowCalendar(users, repo, calendar.(isPublic := b), userID).call.Some?
  {
  }
}
