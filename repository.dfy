/** The event repository (Go `repository.eventRepository`): how an event is laid
    out in the `Calendars` table and read back. Creating an event is a two-step,
    non-atomic write: the primary row `EVENT#<id>`, then the index row
    `CAL#<calendar>#<id>`; a failure of the second leaves the first in place. */
module Repository {
  import opened Wrappers
  import opened Models
  import opened Store

  const EventPrefix := "EVENT#"
  const IndexPrefix := "CAL#"

  /** Attribute names of the event struct in a marshalled item. */
  const EventIDName := "EventID"
  const TitleName := "Title"
  const StartTimeName := "StartTime"
  const EndTimeName := "EndTime"
  const UserIDName := "UserID"

  function PrimaryKey(calendarID: string, eventID: string): (k: Key) {
    Key(calendarID, EventPrefix + eventID)
  }

  function IndexKey(calendarID: string, eventID: string): (k: Key) {
    Key(calendarID, IndexPrefix + calendarID + "#" + eventID)
  }

  /** `dynamodbattribute.MarshalMap` of an event: one string attribute per field. */
  function MarshalEvent(e: Event): (item: Item) {
    map[EventIDName := S(e.eventID), PartitionKeyName := S(e.calendarID),
        TitleName := S(e.title), StartTimeName := S(e.startTime), EndTimeName := S(e.endTime)]
  }

  /** One string field of an item: an absent attribute decodes to the empty
      string. A number attribute stands for whatever the SDK decoder rejects
      and is a type error. */
  function StringAttr(item: Item, name: string): (r: Result<string>)
    ensures r.Err? <==> name in item && item[name].N?
    ensures r.Ok? ==> r.value == if name in item then item[name].s else ""
  {
    if name !in item then Ok("")
    else match item[name]
      case S(s) => Ok(s)
      case N(_) => Err(Error("UnmarshalTypeError: cannot unmarshal number into string field " + name))
  }

  /** `dynamodbattribute.UnmarshalMap` into an event. Attributes the struct does
      not have (`SortKey`, `UserID`) are ignored. */
  function UnmarshalEvent(item: Item): (r: Result<Event>)
    ensures r.Ok? <==> forall name :: name in {EventIDName, PartitionKeyName, TitleName, StartTimeName, EndTimeName}
                                      ==> StringAttr(item, name).Ok?
  {
    var eventID :- StringAttr(item, EventIDName);
    var calendarID :- StringAttr(item, PartitionKeyName);
    var title :- StringAttr(item, TitleName);
    var startTime :- StringAttr(item, StartTimeName);
    var endTime :- StringAttr(item, EndTimeName);
    Ok(Event(eventID, calendarID, title, startTime, endTime))
  }

  /** The primary row: the marshalled event, with the calendar's ID as
      partition key (overriding the event's own) and `EVENT#<id>` as sort key. */
  function PrimaryRow(c: Calendar, e: Event): (item: Item) {
    MarshalEvent(e)[PartitionKeyName := S(c.calendarID)][SortKeyName := S(EventPrefix + e.eventID)]
  }

  /** The index row: the two key attributes and the calendar owner's user ID. */
  function IndexRow(c: Calendar, e: Event): (item: Item) {
    map[PartitionKeyName := S(c.calendarID),
        SortKeyName := S(IndexPrefix + c.calendarID + "#" + e.eventID),
        UserIDName := S(c.ownerUserID)]
  }

  /** The error and the table contents after the two puts of `CreateEvent`,
      given the service's answer to each. */
  function PersistEvent(items: map<Key, Item>, c: Calendar, e: Event, primary: Outcome, index: Outcome)
    : (r: (Outcome, map<Key, Item>))
  {
    if primary.Fail? then (primary, items)
    else
      var written := items[PrimaryKey(c.calendarID, e.eventID) := PrimaryRow(c, e)];
      if index.Fail? then (index, written)
      else (Pass, written[IndexKey(c.calendarID, e.eventID) := IndexRow(c, e)])
  }

  lemma PrimaryAndIndexKeysDiffer(calendarID: string, eventID: string)
    ensures PrimaryKey(calendarID, eventID) != IndexKey(calendarID, eventID)
    ensures !(EventPrefix <= IndexKey(calendarID, eventID).sort)
  {
    assert PrimaryKey(calendarID, eventID).sort[0] == 'E';
    assert IndexKey(calendarID, eventID).sort[0] == 'C';
  }

  /** An event query never returns the calendar aggregate row or an index row. */
  lemma EventRowsAreOnlyEvents(items: map<Key, Item>, calendarID: string, k: Key)
    requires k in Matching(items, calendarID, EventPrefix)
    ensures k.partition == calendarID
    ensures k.sort != CalendarSortKey
    ensures !(IndexPrefix <= k.sort)
  {
    assert k.sort[0] == 'E';
  }

  /** Both rows are stored under the keys their attributes name. */
  lemma RowKeys(c: Calendar, e: Event)
    ensures KeyOf(PrimaryRow(c, e)) == Some(PrimaryKey(c.calendarID, e.eventID))
    ensures KeyOf(IndexRow(c, e)) == Some(IndexKey(c.calendarID, e.eventID))
  {
  }

  /** Round trip of the struct codec. */
  lemma UnmarshalMarshal(e: Event)
    ensures UnmarshalEvent(MarshalEvent(e)) == Ok(e)
  {
  }

  /** Reading the primary row back yields the event, re-homed to the calendar. */
  lemma UnmarshalPrimaryRow(c: Calendar, e: Event)
    ensures UnmarshalEvent(PrimaryRow(c, e)) == Ok(e.(calendarID := c.calendarID))
  {
  }

  /** Only the primary and the index key can change, and each holds its row
      once its put has succeeded; a failed primary put writes nothing and its
      error is returned, and a failed index put returns its error but keeps
      the primary row. */
  lemma PersistEventEffect(items: map<Key, Item>, c: Calendar, e: Event, primary: Outcome, index: Outcome)
    ensures var (err, after) := PersistEvent(items, c, e, primary, index);
      var pk, ik := PrimaryKey(c.calendarID, e.eventID), IndexKey(c.calendarID, e.eventID);
      && (forall k :: k != pk && k != ik ==> (k in after <==> k in items) && (k in items ==> after[k] == items[k]))
      && (primary.Fail? ==> err == primary && after == items)
      && (primary.Pass? ==> pk in after && after[pk] == PrimaryRow(c, e))
      && (primary.Pass? && index.Fail? ==> err == index && (ik in after <==> ik in items)
                                           && (ik in items ==> after[ik] == items[ik]))
      && (primary.Pass? && index.Pass? ==> err == Pass && ik in after && after[ik] == IndexRow(c, e))
  {
    PrimaryAndIndexKeysDiffer(c.calendarID, e.eventID);
  }

  /** Read-after-write: once the primary put has succeeded (whatever became of
      the index put), any successful listing of the calendar's events holds
      the created event, with the calendar's ID. */
  lemma CreatedEventIsListed(
    items: map<Key, Item>, c: Calendar, e: Event, index: Outcome, keys: seq<Key>, events: seq<Event>)
    requires var after := PersistEvent(items, c, e, Pass, index).1;
      && Enumerates(keys, Matching(after, c.calendarID, EventPrefix))
      && |events| == |keys|
      && forall i :: 0 <= i < |keys| ==> keys[i] in after && UnmarshalEvent(after[keys[i]]) == Ok(events[i])
    ensures e.(calendarID := c.calendarID) in events
  {
    var after := PersistEvent(items, c, e, Pass, index).1;
    var pk := PrimaryKey(c.calendarID, e.eventID);
    PersistEventEffect(items, c, e, Pass, index);
    assert EventPrefix <= pk.sort by {
      assert pk.sort[..|EventPrefix|] == EventPrefix;
    }
    assert pk in Matching(after, c.calendarID, EventPrefix);
    var i :| 0 <= i < |keys| && keys[i] == pk;
    UnmarshalPrimaryRow(c, e);
    assert events[i] == e.(calendarID := c.calendarID);
  }

  class EventRepository {
    const db: Table

    constructor (db: Table)
      ensures this.db == db
    {
      this.db := db;
    }

    /** CreateEvent: appends the event to the caller's calendar in memory
        (before, and whatever the outcome of, the writes), then puts the
        primary row and, if that succeeded, the index row. */
    method CreateEvent(calendar: Ref<Calendar>, event: Event, primaryAnswer: Outcome, indexAnswer: Outcome)
      returns (err: Outcome)
      requires db.Valid()
      modifies calendar, db
      ensures db.Valid()
      ensures calendar.value == old(calendar.value).(events := old(calendar.value.events) + [event])
      ensures (err, db.items) == PersistEvent(old(db.items), old(calendar.value), event, primaryAnswer, indexAnswer)
    {
      calendar.value := calendar.value.(events := calendar.value.events + [event]);
      var c := calendar.value;
      RowKeys(c, event);

      var item := PrimaryRow(c, event);
      err := db.PutItem(item, primaryAnswer);
      if err.Fail? {
        return;
      }

      var indexItem := IndexRow(c, event);
      err := db.PutItem(indexItem, indexAnswer);
    }

    /** FindEvents: the events of one calendar, decoded in the order the query
        returned their rows. A failed query yields its error; otherwise the
        first row that does not decode yields its error and no list. */
    method FindEvents(calendarID: string, queryAnswer: Outcome)
      returns (r: Result<seq<Event>>, ghost keys: seq<Key>)
      requires db.Valid()
      ensures queryAnswer.Fail? ==> r == Err(queryAnswer.error)
      ensures queryAnswer.Pass? ==> Enumerates(keys, Matching(db.items, calendarID, EventPrefix))
      ensures queryAnswer.Pass? ==>
        (r.Ok? <==> forall i :: 0 <= i < |keys| ==> keys[i] in db.items && UnmarshalEvent(db.items[keys[i]]).Ok?)
      ensures r.Ok? ==> |r.value| == |keys|
      ensures r.Ok? ==> forall i :: 0 <= i < |keys| ==> keys[i] in db.items && UnmarshalEvent(db.items[keys[i]]) == Ok(r.value[i])
      ensures r.Ok? ==> forall i :: 0 <= i < |r.value| ==> r.value[i].calendarID == calendarID
      ensures queryAnswer.Pass? && r.Err? ==>
        exists i :: 0 <= i < |keys| && keys[i] in db.items && UnmarshalEvent(db.items[keys[i]]) == Err(r.error)
          && forall j :: 0 <= j < i ==> keys[j] in db.items && UnmarshalEvent(db.items[keys[j]]).Ok?
    {
      var result;
      result, keys := db.Query(calendarID, EventPrefix, queryAnswer);
      if result.Err? {
        return Err(result.error), keys;
      }
      var rows := result.value;
      var events: seq<Event> := [];
      for i := 0 to |rows|
        invariant |events| == i
        invariant forall j :: 0 <= j < i ==> UnmarshalEvent(rows[j]) == Ok(events[j])
      {
        var event := UnmarshalEvent(rows[i]);
        if event.Err? {
          return Err(event.error), keys;
        }
        events := events + [event.value];
      }
      return Ok(events), keys;
    }
  }

  /** Read-after-write through the two repository methods: when the primary
      put succeeds, a listing that succeeds holds the event. */
  method ReadAfterWrite(repo: EventRepository, calendar: Ref<Calendar>, event: Event,
                        indexAnswer: Outcome, queryAnswer: Outcome)
    returns (err: Outcome, listed: Result<seq<Event>>)
    requires repo.db.Valid()
    modifies calendar, repo.db
    ensures indexAnswer.Pass? ==> err == Pass
    ensures listed.Ok? ==> event.(calendarID := old(calendar.value).calendarID) in listed.value
  {
    ghost var before := repo.db.items;
    ghost var c := calendar.value;
    err := repo.CreateEvent(calendar, event, Pass, indexAnswer);
    ghost var keys;
    listed, keys := repo.FindEvents(calendar.value.calendarID, queryAnswer);
    if listed.Ok? {
      CreatedEventIsListed(before, c, event, indexAnswer, keys, listed.value);
    }
  }
}
