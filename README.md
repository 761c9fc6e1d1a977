# ShareCalendar: calendar and event core in Dafny

This project models the calendar/event core of ShareCalendar, a serverless HTTP
API for shared calendars. The core covers four things:

- how an event is laid out in the single DynamoDB table `Calendars`. The event
  repository writes two rows per event, one after the other and not atomically:
  a primary row `EVENT#<eventID>` and an index row `CAL#<calendarID>#<eventID>`.
  It reads events back with a begins-with query on `EVENT#`;
- the calendar use case: the public-calendar filter, calendar creation (owner
  name fallback, one OWNER member, a fresh UUID, sort key `CALENDAR`), the user
  guard of follow and unfollow, and the pass-through reads and writes;
- the HTTP handlers for calendars and events. Each one is a ladder from
  collaborator answers to a status, a body and headers;
- the authentication middleware, with its two `Bearer ` headers.

Modules follow the Go packages:

- `Wrappers`: Go's `error`, `(T, error)` and `(*T, error)` as `Error`,
  `Result`, `Outcome` and `Fetched`. It also holds `Traced`, which records the
  argument an operation passed to its state-changing collaborator (`None`
  when that call was never made).
- `Models`: the records, plus `Ref<T>`, a Go pointer whose target a callee
  updates in place.
- `Store`: an in-memory stand-in for the table, a class holding
  `map<Key, Item>` with put-item and a prefix query. Whether the service
  accepts a request is an input to each call.
- `Repository`: `event_impl.go`.
- `Usecase`: `usecase/calendar_impl.go`. The calendar and user repositories
  are records of functions, and the UUID generator is an object that never
  issues an identifier twice.
- `Http`, `CalendarHandler`, `EventHandler`: the handlers. The use cases and
  the JSON codec are function parameters.
- `Middleware`: `AuthMiddleware`, with token validation and
  `FindOrCreateUserByID` as function parameters.

The model follows the code as written:

- Follow has no visibility check.
- Edit passes both records to the repository without merging any fields.
- Name and `isPublic` validation happens only in the create handler.
- A calendar lookup that returns nil without an error still reaches
  `EditCalendar`, with a nil calendar.

The Go files this model covers do not type-check against each other. Each
collaborator therefore has the signature that its call site uses:

- `CreateEvent(calendar, event)` for the event use case;
- `Edit(calendar, input)`, `FindAllCalendars`, `FollowCalendar` and
  `UnfollowCalendar` for the calendar repository;
- `*models.Calendar` as the argument the create handler passes to
  `CreateCalendar`;
- `EditEvent(calendarId, event)` returning `(*Event, error)` and
  `DeleteEvent(calendarId, eventId)` for the event use case, as the event
  handler calls them.

## Model

| member | source | states |
|---|---|---|
| `Repository.EventRepository.CreateEvent` | internal/repository/event_impl.go:12-44 | appends the event to the caller's calendar in memory before any write, whatever the writes do; the table afterwards is exactly `PersistEvent` of the old table, and the table's key invariant is kept |
| `Repository.PersistEventEffect` | internal/repository/event_impl.go:20-43 | only the primary and index keys change; a failed primary put returns its error and writes nothing; a failed index put returns its error and keeps the primary row; success stores both rows |
| `Repository.PrimaryAndIndexKeysDiffer` | internal/repository/event_impl.go:21-34 | the primary key `EVENT#id` and the index key `CAL#cal#id` never coincide, and the index key never matches the `EVENT#` prefix |
| `Repository.RowKeys` | internal/repository/event_impl.go:20-35 | the primary row is stored at (calendar ID, `EVENT#`+event ID) and the index row at (calendar ID, `CAL#`+calendar ID+`#`+event ID) |
| `Repository.UnmarshalPrimaryRow` | internal/repository/event_impl.go:15-21 | the primary row decodes to the event, with the calendar's ID replacing the event's own |
| `Repository.UnmarshalMarshal` | internal/repository/event_impl.go:15-18 | decoding a marshalled event gives the event back |
| `Repository.UnmarshalEvent` | internal/repository/event_impl.go:63-67 | decoding succeeds exactly when each of the five event fields decodes, and then yields those fields; attributes the struct lacks are ignored; which attribute kinds a field rejects is an assumed stand-in (see Left out) |
| `Repository.EventRepository.FindEvents` | internal/repository/event_impl.go:46-72 | on a successful query, returns one event per row of the partition whose sort key begins with `EVENT#`, each row once and in query order; an empty match gives an empty list; a failed query gives its error; otherwise the first row in query order that fails to decode gives its error and no list; on a table whose items sit under their own keys, every listed event carries the queried calendar ID |
| `Repository.EventRowsAreOnlyEvents` | internal/repository/event_impl.go:47-54 | an event query never returns the `CALENDAR` row or a `CAL#` index row |
| `Repository.CreatedEventIsListed` | internal/repository/event_impl.go:12-72 | read-after-write: once the primary put succeeds, whatever the index put did, any successful listing of the calendar holds the event with the calendar's ID |
| `Repository.ReadAfterWrite` | internal/repository/event_impl.go:12-72 | the same round trip, through the two repository methods |
| `Store.Table.PutItem` | internal/repository/event_impl.go:22-30 | a put writes the item under the key its key attributes name and leaves the table unchanged when the store refuses it |
| `Store.Table.Query` | internal/repository/event_impl.go:47-59 | a query returns every item of the partition whose sort key has the prefix, each once, or the store's error |
| `Usecase.FindCalendar` | internal/usecase/calendar_impl.go:11-13 | returns exactly the repository's answer, error or nil included |
| `Usecase.FindPublicCalendars` | internal/usecase/calendar_impl.go:15-28 | a load error is returned as is; otherwise the result is `PublicOnly` of all calendars; every `IsPublic` must be present because it is dereferenced |
| `Usecase.PublicOnlyMembers` | internal/usecase/calendar_impl.go:21-26 | a calendar is kept exactly when it was loaded and its `IsPublic` is true |
| `Usecase.PublicOnlyAppend` | internal/usecase/calendar_impl.go:21-26 | filtering distributes over concatenation, so repository order is kept |
| `Usecase.PublicOnlyIdempotent` | internal/usecase/calendar_impl.go:21-26 | filtering the filtered list changes nothing |
| `Usecase.CreateCalendar` | internal/usecase/calendar_impl.go:30-61 | with an empty owner name, a lookup error aborts with nothing changed; otherwise the owner name falls back to the user's display name, `Users` becomes exactly the owner with OWNER access, the request gets an ID never issued before, which joins the generator's issued set, and `Create` receives that record and decides the result |
| `Usecase.CalendarRecord` | internal/usecase/calendar_impl.go:50-58 | the written record has sort key `CALENDAR` and copies ID, name, `IsPublic`, owner, users and events from the request |
| `Usecase.CreatedCalendarHasSoleOwner` | internal/usecase/calendar_impl.go:38-58 | a created calendar has exactly one member, the owner, with access level OWNER |
| `Usecase.UuidGenerator.New` | internal/usecase/calendar_impl.go:47 | each generated calendar ID differs from every ID generated before |
| `Usecase.EditCalendar` | internal/usecase/calendar_impl.go:63-65 | returns exactly what the repository's edit returns, with no field merge |
| `Usecase.DeleteCalendar` | internal/usecase/calendar_impl.go:67-69 | returns exactly what the repository's delete returns |
| `Usecase.FindCalendars` | internal/usecase/calendar_impl.go:71-73 | returns exactly what the repository's lookup by user returns |
| `Usecase.ResolveUser` | internal/usecase/calendar_impl.go:76-82 | a lookup error is propagated, a nil user becomes "user not found", and otherwise the user is returned |
| `Usecase.FollowCalendar` | internal/usecase/calendar_impl.go:75-85 | the repository is called, with the looked-up user, exactly when the user exists; its answer is the result; otherwise the guard's error is the result |
| `Usecase.FollowIgnoresVisibility` | internal/usecase/calendar_impl.go:75-85 | whether follow reaches the repository does not depend on `IsPublic` |
| `Usecase.UnfollowCalendar` | internal/usecase/calendar_impl.go:87-97 | the same user guard, then exactly the repository's unfollow |
| `CalendarHandler.HandleGetCalendar` | internal/handler/calendar_impl.go:12-33 | 500 with the error text on a failed lookup or encoding; otherwise 200 with the encoded calendar |
| `CalendarHandler.HandleGetCalendars` | internal/handler/calendar_impl.go:35-55 | 500 on a failed lookup or encoding; otherwise 200 with the encoded list for the `userId` path parameter |
| `CalendarHandler.HandleCreateCalendar` | internal/handler/calendar_impl.go:57-97 | 400 without calling the use case exactly when the body fails to decode, the name is empty or `isPublic` is absent, so an explicit `false` passes; otherwise the use case receives the decoded calendar with the path `userId` as owner and a single OWNER member, and 201 or 500 follows its answer |
| `CalendarHandler.HandleEditCalendar` | internal/handler/calendar_impl.go:99-131 | 400 on a bad body; the path `calendarId` overrides the body's; a failed lookup gives 404 and no edit; otherwise the edit receives the lookup's calendar and the input, and 200 or 500 follows its answer |
| `CalendarHandler.HandleDeleteCalendar` | internal/handler/calendar_impl.go:133-146 | 200 exactly when the delete of the path's calendar succeeds, 500 exactly when it fails |
| `EventHandler.HandleCreateEvent` | internal/handler/event_impl.go:12-54 | 400 on a bad body before any lookup; 500 on a failed lookup; 404 with no create when the calendar is nil; otherwise the create receives the found calendar and the event, and 201 or 500 follows its answer; the CORS headers are present exactly on success |
| `EventHandler.HandleEditEvent` | internal/handler/event_impl.go:56-92 | 400 and no edit on a bad body; 500 on a failed edit or encoding; otherwise 200 whose body is the encoded updated event, with the CORS headers |
| `EventHandler.HandleGetEventList` | internal/handler/event_impl.go:94-120 | 500 on a failed lookup or encoding; otherwise 200 with the encoded list and the CORS headers |
| `EventHandler.HandleDeleteEvent` | internal/handler/event_impl.go:122-152 | 400 and no delete on a bad body; the delete receives the body's calendar and event IDs; 200 with the CORS headers or 500 follows its answer |
| `EventHandler.DeleteEventIgnoresPath` | internal/handler/event_impl.go:122-135 | the path parameters play no part in deleting an event |
| `Middleware.BearerToken` | internal/middleware/middleware.go:32-36 | a token exists exactly when the header is present and begins with `Bearer `, and the header is then `Bearer ` followed by the token |
| `Middleware.BearerTokenRoundTrip` | internal/middleware/middleware.go:32-36 | trimming `Bearer ` from a prefixed token gives the token back |
| `Middleware.UnauthorizedResponse` | internal/middleware/middleware.go:69-74 | a 401 whose body is the message |
| `Middleware.AuthMiddleware` | internal/middleware/middleware.go:30-66 | a missing or unprefixed `Authorization` header gives 401 with no validation; the validator first sees the trimmed access token, and a failure gives 401 with its text; `X-Id-Token` is examined only after that, with the same checks; the ID token's `sub` goes to `FindOrCreateUserByID`, and a failure there gives 500; the next handler is reached, with the unchanged request, exactly when all of this passes |
| `Middleware.RefusalsAreUnauthorized` | internal/middleware/middleware.go:30-66 | every refusal is a 401, or a 500 after the subject was resolved; a forwarded request has had both trimmed tokens validated |

## Left out

- The error branch of `dynamodbattribute.MarshalMap` in `CreateEvent` (internal/repository/event_impl.go:15-18) is not modelled. Marshalling an event is total in the model, because a struct of strings always marshals.
- DynamoDB returns query rows in ascending sort-key order. The model's query returns them in an unspecified order, and `FindEvents` keeps whatever order it gets.
- Repository.UnmarshalEvent: which attribute kinds make `dynamodbattribute.UnmarshalMap` fail is SDK behaviour outside the modelled code. The model assumes a string field rejects a number attribute, as a stand-in for the SDK's type errors, and the SDK may decode some such attributes instead.
- Repository.PersistEventEffect: the store treats every failed put as not applied. A put whose outcome is unknown (the response lost after DynamoDB applied the write, or the context deadline passing mid-call) is not modelled. The Go code can therefore also end with the primary row stored and the first put's error returned, and the two "unchanged" halves (nothing written after a failed primary put, the index key as it was after a failed index put) are properties of the model.
- Repository.CreatedEventIsListed: the read-after-write round trip (and `Repository.ReadAfterWrite`) is a property of the model, not of the deployed query. The model's table is strongly consistent and its query returns every matching row in one call. The Go query (internal/repository/event_impl.go:47-56) sets no `ConsistentRead`, so DynamoDB reads it eventually consistently, and it makes a single `QueryWithContext` call without following `LastEvaluatedKey`, so rows past DynamoDB's 1 MB page limit are not listed.
- When several fields of a row fail to decode, `UnmarshalEvent` reports the first one in struct-field order. The SDK may report another one.
- The `Event` struct is not part of this model. It is assumed to have the string fields `EventID`, `CalendarID`, `Title`, `StartTime` and `EndTime`, stored under those attribute names.
- The table name `Calendars` (internal/repository/interfaces.go:18) is not modelled. One `Table` object stands for that table.
- `context.Context`, cancellation and `context.WithValue` are not modelled. The middleware forwards the unchanged request, and the JWT data it stores in the context is dropped.
- JSON encoding and decoding, and the handlers' use-case calls, are function parameters. The calendar and user repository implementations are outside the modelled code, so they are function parameters too.
- JWT validation is a function parameter. A validated token is reduced to its `sub` claim, so the panicking claim type assertions (internal/middleware/middleware.go:52-53) are not modelled.
- Usecase.CreateCalendar: the precondition excludes a missing-owner lookup that returns nil without an error, because the Go code then dereferences a nil user (internal/usecase/calendar_impl.go:32-36) and panics.
- Usecase.FindPublicCalendars: the precondition requires every `IsPublic` to be present, because the Go code dereferences it (internal/usecase/calendar_impl.go:23) and a nil flag panics.
- The event use case (internal/usecase/event_usecase.go) only delegates, with signatures that do not match its callers. The handlers take its operations as parameters instead.
- Lambda route dispatch (main/main.go) is not modelled.
- Composing the handlers with the use case and the repository is not modelled. Each layer is proved against the answers of the layer below it.
