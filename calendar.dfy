/** The calendar tools of src/macro_man/tools/calendar.py: `schedule_meet` and
    `list_events` validate their arguments in a fixed order, build a sparse JSON
    payload of trimmed values and post it to the calendar service; the
    registered wrappers turn any failure into an error object. Validation errors
    are raised before the service call and reach the caller as they are; only
    failures of the call are re-wrapped with the tool's own prefix. */
module Calendar {
  import opened Errors
  import opened Text
  import opened Json
  import opened Patterns
  import opened Validation
  import opened Service

  /** The `attendees` argument when it is not None: a list (or tuple) of values of
      any JSON type, or some other value, which the tool rejects. */
  datatype Attendees = Listed(items: seq<Loose>) | Unlisted

  /** The arguments of `schedule_meet`. */
  datatype MeetRequest = MeetRequest(
    title: string,
    description: Option<string>,
    start: string,
    end: string,
    timeZone: Option<string>,
    attendees: Option<Attendees>,
    sendUpdates: Option<string>)

  /** The arguments of `list_events`. */
  datatype EventsQuery = EventsQuery(
    timeMin: string,
    timeMax: string,
    maxResults: Option<Loose>,
    q: Option<string>)

  const SendUpdatesValues: set<string> := {"all", "externalOnly", "none"}

  const ScheduleMeetPrefix := "Failed to schedule meeting"
  const ListEventsPrefix := "Failed to list events"

  // ---------------------------------------------------------------------------
  // _validate_emails

  /** Why one attendee is refused, if it is: it is not a non-blank string, or its
      stripped form is not an e-mail address. */
  function AttendeeFailure(item: Loose): Option<string> {
    if !item.LText? || IsBlank(item.s) then Some("Attendee email must be a non-empty string")
    else if !IsEmail(Strip(item.s)) then Some("Invalid attendee email format")
    else None
  }

  /** The checks `_validate_emails` makes, one per attendee, in list order. */
  function AttendeeChecks(items: seq<Loose>): (cs: seq<Check>)
    ensures |cs| == |items|
    ensures forall i | 0 <= i < |items| :: cs[i] == Check("attendees", AttendeeFailure(items[i]))
  {
    seq(|items|, i requires 0 <= i < |items| => Check("attendees", AttendeeFailure(items[i])))
  }

  /** `_validate_emails(attendees)`: the attendees stripped, in order, or the
      error of the first one refused. */
  method ValidateEmails(attendees: seq<Loose>) returns (r: Result<seq<string>>)
    ensures r.Err? <==> FirstFailure(AttendeeChecks(attendees)).Some?
    ensures r.Err? ==> Some(r.error) == FirstFailure(AttendeeChecks(attendees))
    ensures r.Ok? ==>
      && |r.value| == |attendees|
      && forall i | 0 <= i < |attendees| ::
           && attendees[i].LText?
           && r.value[i] == Strip(attendees[i].s)
           && IsEmail(r.value[i])
  {
    var checks := AttendeeChecks(attendees);
    var cleaned: seq<string> := [];
    var i := 0;
    while i < |attendees|
      invariant 0 <= i <= |attendees|
      invariant |cleaned| == i
      invariant forall j | 0 <= j < i ::
        && Passes(checks[j])
        && attendees[j].LText?
        && cleaned[j] == Strip(attendees[j].s)
        && IsEmail(cleaned[j])
    {
      var email := attendees[i];
      if !email.LText? || IsBlank(email.s) {
        FirstFailureAt(checks, i);
        return Err(NewValidationError("Attendee email must be a non-empty string", Some("attendees")));
      }
      var clean := Strip(email.s);
      if !IsEmail(clean) {
        FirstFailureAt(checks, i);
        return Err(NewValidationError("Invalid attendee email format", Some("attendees")));
      }
      cleaned := cleaned + [clean];
      i := i + 1;
    }
    FirstFailureIsFirst(checks);
    return Ok(cleaned);
  }

  // ---------------------------------------------------------------------------
  // schedule_meet

  /** The attendee list itself is refused when it is not a list or is empty. */
  predicate AttendeeListRefused(a: Option<Attendees>) {
    a.Some? && (a.value.Unlisted? || a.value.items == [])
  }

  /** The attendees that `_validate_emails` goes through: none unless a list was given. */
  function ListedAttendees(a: Option<Attendees>): seq<Loose> {
    if a.Some? && a.value.Listed? then a.value.items else []
  }

  /** The checks `schedule_meet` makes on its arguments before it looks at the
      attendees one by one, in order. */
  function MeetFieldChecks(req: MeetRequest): (cs: seq<Check>)
    ensures |cs| == 7
  {
    [ CheckThat("title", IsBlank(req.title), "Title is required"),
      CheckThat("start", IsBlank(req.start), "Start datetime is required"),
      CheckThat("end", IsBlank(req.end), "End datetime is required"),
      CheckThat("start", !IsDateTime(Strip(req.start)), "start must be ISO8601 like 2025-10-21T10:00:00Z"),
      CheckThat("end", !IsDateTime(Strip(req.end)), "end must be ISO8601 like 2025-10-21T10:30:00Z"),
      CheckThat("sendUpdates", req.sendUpdates.Some? && req.sendUpdates.value !in SendUpdatesValues,
                "sendUpdates must be one of: all, externalOnly, none"),
      CheckThat("attendees", AttendeeListRefused(req.attendees), "attendees must be a non-empty list of emails")
    ]
  }

  /** All the checks of `schedule_meet`, in the order it makes them. */
  function MeetChecks(req: MeetRequest): (cs: seq<Check>)
    ensures |cs| == 7 + |ListedAttendees(req.attendees)|
  {
    MeetFieldChecks(req) + AttendeeChecks(ListedAttendees(req.attendees))
  }

  /** The stripped text of a listed attendee. */
  function AttendeeText(v: Loose): string {
    if v.LText? then Strip(v.s) else ""
  }

  /** The JSON list of stripped attendee addresses. */
  function AttendeesJson(items: seq<Loose>): (j: Json)
    ensures j.JList? && |j.items| == |items|
    ensures forall i | 0 <= i < |items| :: j.items[i] == JStr(AttendeeText(items[i]))
  {
    JList(seq(|items|, i requires 0 <= i < |items| => JStr(AttendeeText(items[i]))))
  }

  const MeetKeys: set<string> := {"title", "start", "end", "description", "timeZone", "attendees", "sendUpdates"}

  /** The payload `schedule_meet` posts: the three required fields stripped; a
      description and a time zone, stripped, only when given and not blank; the
      cleaned attendees only when given; `sendUpdates` as given, untrimmed; and
      no other key. */
  predicate IsMeetPayload(req: MeetRequest, p: Payload) {
    && p.Keys <= MeetKeys
    && "title" in p && p["title"] == JStr(Strip(req.title))
    && "start" in p && p["start"] == JStr(Strip(req.start))
    && "end" in p && p["end"] == JStr(Strip(req.end))
    && ("description" in p <==> Supplied(req.description))
    && ("description" in p ==> p["description"] == JStr(Strip(req.description.value)))
    && ("timeZone" in p <==> Supplied(req.timeZone))
    && ("timeZone" in p ==> p["timeZone"] == JStr(Strip(req.timeZone.value)))
    && ("attendees" in p <==> req.attendees.Some?)
    && ("attendees" in p ==> p["attendees"] == AttendeesJson(ListedAttendees(req.attendees)))
    && ("sendUpdates" in p <==> req.sendUpdates.Some?)
    && ("sendUpdates" in p ==> p["sendUpdates"] == JStr(req.sendUpdates.value))
  }

  /** The checks of `schedule_meet` up to the attendee list, made one after the
      other: the first that fails raises its error. */
  method CheckMeetFields(req: MeetRequest) returns (e: Option<Error>)
    ensures e == FirstFailure(MeetFieldChecks(req))
  {
    var checks := MeetFieldChecks(req);
    if IsBlank(req.title) {
      FirstFailureAt(checks, 0);
      return Some(NewValidationError("Title is required", Some("title")));
    }
    if IsBlank(req.start) {
      FirstFailureAt(checks, 1);
      return Some(NewValidationError("Start datetime is required", Some("start")));
    }
    if IsBlank(req.end) {
      FirstFailureAt(checks, 2);
      return Some(NewValidationError("End datetime is required", Some("end")));
    }
    if !IsDateTime(Strip(req.start)) {
      FirstFailureAt(checks, 3);
      return Some(NewValidationError("start must be ISO8601 like 2025-10-21T10:00:00Z", Some("start")));
    }
    if !IsDateTime(Strip(req.end)) {
      FirstFailureAt(checks, 4);
      return Some(NewValidationError("end must be ISO8601 like 2025-10-21T10:30:00Z", Some("end")));
    }
    if req.sendUpdates.Some? && req.sendUpdates.value !in SendUpdatesValues {
      FirstFailureAt(checks, 5);
      return Some(NewValidationError("sendUpdates must be one of: all, externalOnly, none", Some("sendUpdates")));
    }
    if req.attendees.Some? && (req.attendees.value.Unlisted? || req.attendees.value.items == []) {
      FirstFailureAt(checks, 6);
      return Some(NewValidationError("attendees must be a non-empty list of emails", Some("attendees")));
    }
    FirstFailureIsFirst(checks);
    return None;
  }

  /** `schedule_meet(...)` with the service answering `reply`, read through
      mapping `m` (`AsWritten` is the source). The first failing check decides
      the error and no request is made; otherwise the payload is posted and a
      failure of the call is re-wrapped. */
  method ScheduleMeet(req: MeetRequest, m: Mapping, reply: Reply) returns (inv: Invocation<Json>)
    ensures FirstFailure(MeetChecks(req)).Some? ==>
      inv == Invocation(Err(FirstFailure(MeetChecks(req)).value), None)
    ensures FirstFailure(MeetChecks(req)).None? ==>
      && inv.sent.Some? && IsMeetPayload(req, inv.sent.value)
      && inv.result == Rewrap(ScheduleMeetPrefix, Answer(m, ScheduleMeetEndpoint, reply))
  {
    var e := CheckMeetFields(req);
    var checks := MeetFieldChecks(req);
    FirstFailureAppend(checks, AttendeeChecks(ListedAttendees(req.attendees)));
    if e.Some? {
      return Invocation(Err(e.value), None);
    }
    FirstFailureIsFirst(checks);
    assert Passes(checks[6]);
    var cleaned: Option<seq<string>> := None;
    if req.attendees.Some? {
      var v := ValidateEmails(req.attendees.value.items);
      if v.Err? {
        return Invocation(Err(v.error), None);
      }
      cleaned := Some(v.value);
    }
    var payload := MeetPayload(req, cleaned);
    return Invocation(Rewrap(ScheduleMeetPrefix, Answer(m, ScheduleMeetEndpoint, reply)), Some(payload));
  }

  /** The payload of `schedule_meet`, key by key, given the cleaned attendees. */
  method MeetPayload(req: MeetRequest, cleaned: Option<seq<string>>) returns (payload: Payload)
    requires cleaned.Some? <==> req.attendees.Some?
    requires cleaned.Some? ==>
      && req.attendees.value.Listed?
      && |cleaned.value| == |req.attendees.value.items|
      && forall i | 0 <= i < |cleaned.value| :: cleaned.value[i] == AttendeeText(req.attendees.value.items[i])
    ensures IsMeetPayload(req, payload)
  {
    payload := map["title" := JStr(Strip(req.title)), "start" := JStr(Strip(req.start)),
                   "end" := JStr(Strip(req.end))];
    if req.description.Some? && !IsBlank(req.description.value) {
      payload := payload["description" := JStr(Strip(req.description.value))];
    }
    if req.timeZone.Some? && !IsBlank(req.timeZone.value) {
      payload := payload["timeZone" := JStr(Strip(req.timeZone.value))];
    }
    if cleaned.Some? {
      var addresses := cleaned.value;
      payload := payload["attendees" := JList(seq(|addresses|, i requires 0 <= i < |addresses| => JStr(addresses[i])))];
    }
    if req.sendUpdates.Some? {
      payload := payload["sendUpdates" := JStr(req.sendUpdates.value)];
    }
  }

  /** The registered `_schedule_meet` tool: the service's answer, or an error
      object carrying the error's text. */
  method ScheduleMeetTool(req: MeetRequest, m: Mapping, reply: Reply) returns (out: Json)
    ensures FirstFailure(MeetChecks(req)).Some? ==>
      out == ToolOutput(Err(FirstFailure(MeetChecks(req)).value), ScheduleMeetPrefix)
    ensures FirstFailure(MeetChecks(req)).None? ==>
      out == ToolOutput(Rewrap(ScheduleMeetPrefix, Answer(m, ScheduleMeetEndpoint, reply)), ScheduleMeetPrefix)
  {
    var inv := ScheduleMeet(req, m, reply);
    out := ToolOutput(inv.result, ScheduleMeetPrefix);
  }

  // ---------------------------------------------------------------------------
  // list_events

  /** The checks of `list_events`, in the order it makes them. */
  function EventChecks(query: EventsQuery): (cs: seq<Check>)
    ensures |cs| == 5
  {
    [ CheckThat("timeMin", IsBlank(query.timeMin), "timeMin is required"),
      CheckThat("timeMax", IsBlank(query.timeMax), "timeMax is required"),
      CheckThat("timeMin", !IsDateTime(Strip(query.timeMin)), "timeMin must be ISO8601 like 2025-10-20T00:00:00Z"),
      CheckThat("timeMax", !IsDateTime(Strip(query.timeMax)), "timeMax must be ISO8601 like 2025-10-27T23:59:59Z"),
      CheckThat("maxResults", query.maxResults.Some? && !IsPositiveInt(query.maxResults.value),
                "maxResults must be a positive integer")
    ]
  }

  const EventKeys: set<string> := {"timeMin", "timeMax", "maxResults", "q"}

  /** The payload `list_events` posts: the stripped bounds, `maxResults` as given
      whenever it is given, the stripped query only when it is not blank, and no
      other key. */
  predicate IsEventsPayload(query: EventsQuery, p: Payload) {
    && p.Keys <= EventKeys
    && "timeMin" in p && p["timeMin"] == JStr(Strip(query.timeMin))
    && "timeMax" in p && p["timeMax"] == JStr(Strip(query.timeMax))
    && ("maxResults" in p <==> query.maxResults.Some?)
    && ("maxResults" in p ==> p["maxResults"] == LooseJson(query.maxResults.value))
    && ("q" in p <==> Supplied(query.q))
    && ("q" in p ==> p["q"] == JStr(Strip(query.q.value)))
  }

  /** The checks of `list_events`, made one after the other: the first that
      fails raises its error. */
  method CheckEventFields(query: EventsQuery) returns (e: Option<Error>)
    ensures e == FirstFailure(EventChecks(query))
  {
    var checks := EventChecks(query);
    if IsBlank(query.timeMin) {
      FirstFailureAt(checks, 0);
      return Some(NewValidationError("timeMin is required", Some("timeMin")));
    }
    if IsBlank(query.timeMax) {
      FirstFailureAt(checks, 1);
      return Some(NewValidationError("timeMax is required", Some("timeMax")));
    }
    if !IsDateTime(Strip(query.timeMin)) {
      FirstFailureAt(checks, 2);
      return Some(NewValidationError("timeMin must be ISO8601 like 2025-10-20T00:00:00Z", Some("timeMin")));
    }
    if !IsDateTime(Strip(query.timeMax)) {
      FirstFailureAt(checks, 3);
      return Some(NewValidationError("timeMax must be ISO8601 like 2025-10-27T23:59:59Z", Some("timeMax")));
    }
    if query.maxResults.Some? && !IsPositiveInt(query.maxResults.value) {
      FirstFailureAt(checks, 4);
      return Some(NewValidationError("maxResults must be a positive integer", Some("maxResults")));
    }
    FirstFailureIsFirst(checks);
    return None;
  }

  /** `list_events(...)` with the service answering `reply`, read through
      mapping `m`. */
  method ListEvents(query: EventsQuery, m: Mapping, reply: Reply) returns (inv: Invocation<Json>)
    ensures FirstFailure(EventChecks(query)).Some? ==>
      inv == Invocation(Err(FirstFailure(EventChecks(query)).value), None)
    ensures FirstFailure(EventChecks(query)).None? ==>
      && inv.sent.Some? && IsEventsPayload(query, inv.sent.value)
      && inv.result == Rewrap(ListEventsPrefix, Answer(m, ListEventsEndpoint, reply))
  {
    var e := CheckEventFields(query);
    if e.Some? {
      return Invocation(Err(e.value), None);
    }
    var payload := EventsPayload(query);
    return Invocation(Rewrap(ListEventsPrefix, Answer(m, ListEventsEndpoint, reply)), Some(payload));
  }

  /** The payload of `list_events`, key by key. */
  method EventsPayload(query: EventsQuery) returns (payload: Payload)
    ensures IsEventsPayload(query, payload)
  {
    payload := map["timeMin" := JStr(Strip(query.timeMin)), "timeMax" := JStr(Strip(query.timeMax))];
    if query.maxResults.Some? {
      payload := payload["maxResults" := LooseJson(query.maxResults.value)];
    }
    if query.q.Some? && !IsBlank(query.q.value) {
      payload := payload["q" := JStr(Strip(query.q.value))];
    }
  }

  /** The registered `_list_events` tool. */
  method ListEventsTool(query: EventsQuery, m: Mapping, reply: Reply) returns (out: Json)
    ensures FirstFailure(EventChecks(query)).Some? ==>
      out == ToolOutput(Err(FirstFailure(EventChecks(query)).value), ListEventsPrefix)
    ensures FirstFailure(EventChecks(query)).None? ==>
      out == ToolOutput(Rewrap(ListEventsPrefix, Answer(m, ListEventsEndpoint, reply)), ListEventsPrefix)
  {
    var inv := ListEvents(query, m, reply);
    out := ToolOutput(inv.result, ListEventsPrefix);
  }

  // ---------------------------------------------------------------------------
  // Properties of the payloads

  /** What validation guarantees about the posted meeting: every text field is
      trimmed and non-empty, start and end are date-times, `sendUpdates` is one of
      the three values, and the attendees form a non-empty list of addresses. */
  lemma {:induction false} MeetPayloadIsClean(req: MeetRequest, p: Payload)
    requires FirstFailure(MeetChecks(req)).None? && IsMeetPayload(req, p)
    ensures Trimmed(p["title"]) && Trimmed(p["start"]) && Trimmed(p["end"])
    ensures "description" in p ==> Trimmed(p["description"])
    ensures "timeZone" in p ==> Trimmed(p["timeZone"])
    ensures IsDateTime(p["start"].s) && IsDateTime(p["end"].s)
    ensures "sendUpdates" in p ==> p["sendUpdates"].JStr? && p["sendUpdates"].s in SendUpdatesValues
    ensures "attendees" in p ==>
      && p["attendees"].JList? && p["attendees"].items != []
      && forall i | 0 <= i < |p["attendees"].items| ::
           p["attendees"].items[i].JStr? && IsEmail(p["attendees"].items[i].s)
  {
    MeetFieldsClean(req, p);
    if "attendees" in p {
      MeetAttendeesClean(req, p);
    }
  }

  /** The field half of MeetPayloadIsClean: the texts, the times and `sendUpdates`. */
  lemma {:induction false} MeetFieldsClean(req: MeetRequest, p: Payload)
    requires FirstFailure(MeetChecks(req)).None? && IsMeetPayload(req, p)
    ensures Trimmed(p["title"]) && Trimmed(p["start"]) && Trimmed(p["end"])
    ensures "description" in p ==> Trimmed(p["description"])
    ensures "timeZone" in p ==> Trimmed(p["timeZone"])
    ensures IsDateTime(p["start"].s) && IsDateTime(p["end"].s)
    ensures "sendUpdates" in p ==> p["sendUpdates"].JStr? && p["sendUpdates"].s in SendUpdatesValues
  {
    var checks := MeetChecks(req);
    FirstFailureIsFirst(checks);
    assert Passes(checks[0]) && Passes(checks[1]) && Passes(checks[2]);
    assert Passes(checks[3]) && Passes(checks[4]) && Passes(checks[5]);
    StrippedIsTrimmed(req.title);
    StrippedIsTrimmed(req.start);
    StrippedIsTrimmed(req.end);
    if "description" in p {
      StrippedIsTrimmed(req.description.value);
    }
    if "timeZone" in p {
      StrippedIsTrimmed(req.timeZone.value);
    }
  }

  /** The attendee half of MeetPayloadIsClean: a non-empty list of addresses. */
  lemma {:induction false} MeetAttendeesClean(req: MeetRequest, p: Payload)
    requires FirstFailure(MeetChecks(req)).None? && IsMeetPayload(req, p) && "attendees" in p
    ensures p["attendees"].JList? && p["attendees"].items != []
    ensures forall i | 0 <= i < |p["attendees"].items| ::
      p["attendees"].items[i].JStr? && IsEmail(p["attendees"].items[i].s)
  {
    var items := ListedAttendees(req.attendees);
    var fields, each := MeetFieldChecks(req), AttendeeChecks(items);
    FirstFailureAppend(fields, each);
    FirstFailureIsFirst(fields);
    assert Passes(fields[6]);
    FirstFailureIsFirst(each);
    forall i | 0 <= i < |items|
      ensures p["attendees"].items[i].JStr? && IsEmail(p["attendees"].items[i].s)
    {
      assert Passes(each[i]);
    }
  }

  /** What validation guarantees about the posted event query: the bounds are
      trimmed date-times, `maxResults` is a positive integer (or `true`, which
      Python counts as the integer 1), and the search text is trimmed. */
  lemma {:induction false} EventsPayloadIsClean(query: EventsQuery, p: Payload)
    requires FirstFailure(EventChecks(query)).None? && IsEventsPayload(query, p)
    ensures Trimmed(p["timeMin"]) && Trimmed(p["timeMax"])
    ensures IsDateTime(p["timeMin"].s) && IsDateTime(p["timeMax"].s)
    ensures "maxResults" in p ==> (p["maxResults"].JInt? && p["maxResults"].i > 0) || p["maxResults"] == JBool(true)
    ensures "q" in p ==> Trimmed(p["q"])
  {
    var checks := EventChecks(query);
    FirstFailureIsFirst(checks);
    assert Passes(checks[0]) && Passes(checks[1]) && Passes(checks[2]);
    assert Passes(checks[3]) && Passes(checks[4]);
    StrippedIsTrimmed(query.timeMin);
    StrippedIsTrimmed(query.timeMax);
    if "q" in p {
      StrippedIsTrimmed(query.q.value);
    }
  }

  /** A titled request with a start and an end that are date-times passes the
      first five checks of `schedule_meet`. */
  lemma {:induction false} MeetTimesPass(req: MeetRequest)
    requires !IsBlank(req.title) && IsDateTime(Strip(req.start)) && IsDateTime(Strip(req.end))
    ensures forall j | 0 <= j < 5 :: Passes(MeetFieldChecks(req)[j])
  {
    DateTimeIsStripped(Strip(req.start));
    DateTimeIsStripped(Strip(req.end));
    assert !IsBlank(req.start) && !IsBlank(req.end);
  }

  /** A meeting is never sent with a `sendUpdates` the service does not know, nor
      with an empty attendee list: either makes `schedule_meet` fail on that field. */
  lemma {:induction false} MeetRejectsBadOptions(req: MeetRequest)
    requires !IsBlank(req.title) && IsDateTime(Strip(req.start)) && IsDateTime(Strip(req.end))
    ensures req.sendUpdates.Some? && req.sendUpdates.value !in SendUpdatesValues ==>
      FirstFailure(MeetChecks(req)) == Some(Validation("sendUpdates must be one of: all, externalOnly, none", Some("sendUpdates")))
    ensures (req.sendUpdates.None? || req.sendUpdates.value in SendUpdatesValues) && req.attendees == Some(Listed([])) ==>
      FirstFailure(MeetChecks(req)) == Some(Validation("attendees must be a non-empty list of emails", Some("attendees")))
  {
    var checks := MeetFieldChecks(req);
    FirstFailureAppend(checks, AttendeeChecks(ListedAttendees(req.attendees)));
    MeetTimesPass(req);
    if req.sendUpdates.Some? && req.sendUpdates.value !in SendUpdatesValues {
      assert IsFirstFailing(checks, 5);
      FirstFailureAt(checks, 5);
    } else if req.attendees == Some(Listed([])) {
      assert IsFirstFailing(checks, 6);
      FirstFailureAt(checks, 6);
    }
  }
}
