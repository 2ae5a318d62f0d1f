/** The e-mail tools of src/macro_man/tools/email.py. `send_email` validates and
    strips its three arguments, posts them to the e-mail service and shapes the
    service's answer into a report; `read_email` validates two of its filters and
    posts only the filters that were supplied. */
module Email {
  import opened Errors
  import opened Text
  import opened Json
  import opened Patterns
  import opened Validation
  import opened Service

  const SendEmailPrefix := "Failed to send email"
  const ReadEmailPrefix := "Failed to read emails"

  // ---------------------------------------------------------------------------
  // send_email

  /** The checks of `send_email`, in the order it makes them; the address is
      matched after stripping. */
  function SendChecks(to: string, subject: string, body: string): (cs: seq<Check>)
    ensures |cs| == 4
  {
    [ CheckThat("to", IsBlank(to), "Recipient email address is required"),
      CheckThat("subject", IsBlank(subject), "Email subject is required"),
      CheckThat("body", IsBlank(body), "Email body is required"),
      CheckThat("to", !IsEmail(Strip(to)), "Invalid email address format")
    ]
  }

  /** The report `send_email` builds from the service's answer with `.get`, which
      only a JSON object has: any other answer raises AttributeError, which the
      tool re-wraps like every other failure of the call. */
  function Report(to: string, subject: string, body: string, answer: Result<Json>): (r: Result<Json>)
    ensures answer.Err? ==> r == Rewrap(SendEmailPrefix, answer)
    ensures answer.Ok? && !answer.value.JObject? ==>
      r == Err(Generic(SendEmailPrefix + ": '" + TypeName(answer.value) + "' object has no attribute 'get'"))
    ensures r.Ok? <==> answer.Ok? && answer.value.JObject?
    ensures r.Ok? ==>
      && r.value.JObject?
      && r.value.fields.Keys == {"success", "message", "messageId", "recipient", "subject", "body_length", "details"}
      && r.value.fields["recipient"] == JStr(to) && r.value.fields["subject"] == JStr(subject)
      && r.value.fields["body_length"] == JInt(|body|) && r.value.fields["details"] == answer.value
      && r.value.fields["success"] == Get(answer.value.fields, "success", JBool(false))
      && r.value.fields["messageId"] == Get(answer.value.fields, "messageId", JNull)
      && r.value.fields["message"] == Get(answer.value.fields, "message", JStr("Email sent successfully"))
  {
    match answer
    case Err(_) => Rewrap(SendEmailPrefix, answer)
    case Ok(j) =>
      if j.JObject? then
        Ok(JObject(map[
          "success" := Get(j.fields, "success", JBool(false)),
          "message" := Get(j.fields, "message", JStr("Email sent successfully")),
          "messageId" := Get(j.fields, "messageId", JNull),
          "recipient" := JStr(to),
          "subject" := JStr(subject),
          "body_length" := JInt(|body|),
          "details" := j]))
      else
        Err(Generic(SendEmailPrefix + ": '" + TypeName(j) + "' object has no attribute 'get'"))
  }

  /** `send_email(to, subject, body)` with the service answering `reply`, read
      through mapping `m`: a validation error is raised before any request is
      made, and once the request is made the result is the report built from the
      service's answer. */
  function SendEmail(to: string, subject: string, body: string, m: Mapping, reply: Reply): (inv: Invocation<Json>)
    ensures inv.sent.None? <==> inv.result.Err? && inv.result.error.Validation?
    ensures inv.sent.Some? ==>
      && inv.sent.value.Keys == {"to", "subject", "body"}
      && Trimmed(inv.sent.value["to"]) && IsEmail(inv.sent.value["to"].s)
      && Trimmed(inv.sent.value["subject"]) && Trimmed(inv.sent.value["body"])
    ensures inv.sent.Some? ==>
      inv.result == Report(Strip(to), Strip(subject), Strip(body), Answer(m, SendEmailEndpoint, reply))
  {
    if IsBlank(to) then Invocation(Err(NewValidationError("Recipient email address is required", Some("to"))), None)
    else if IsBlank(subject) then Invocation(Err(NewValidationError("Email subject is required", Some("subject"))), None)
    else if IsBlank(body) then Invocation(Err(NewValidationError("Email body is required", Some("body"))), None)
    else
      var to', subject', body' := Strip(to), Strip(subject), Strip(body);
      if !IsEmail(to') then Invocation(Err(NewValidationError("Invalid email address format", Some("to"))), None)
      else
        StrippedIsTrimmed(to);
        StrippedIsTrimmed(subject);
        StrippedIsTrimmed(body);
        var payload := map["to" := JStr(to'), "subject" := JStr(subject'), "body" := JStr(body')];
        Invocation(Report(to', subject', body', Answer(m, SendEmailEndpoint, reply)), Some(payload))
  }

  /** The registered `_send_email` tool. */
  function SendEmailTool(to: string, subject: string, body: string, m: Mapping, reply: Reply): (out: Json)
    ensures SendEmail(to, subject, body, m, reply).result.Ok? ==> out == SendEmail(to, subject, body, m, reply).result.value
    ensures SendEmail(to, subject, body, m, reply).result.Err? ==>
      && out.JObject? && out.fields.Keys == {"success", "error", "message"}
      && out.fields["success"] == JBool(false)
      && out.fields["error"] == JStr(Str(SendEmail(to, subject, body, m, reply).result.error))
      && out.fields["message"] == JStr(SendEmailPrefix)
  {
    ToolOutput(SendEmail(to, subject, body, m, reply).result, SendEmailPrefix)
  }

  /** Validation order of `send_email`: a blank recipient, subject or body is
      reported in that order, then a malformed address; the request is made and
      its payload is the three stripped arguments exactly when all checks pass. */
  lemma {:induction false} SendEmailChecksInOrder(to: string, subject: string, body: string, m: Mapping, reply: Reply)
    ensures var inv := SendEmail(to, subject, body, m, reply);
      && (FirstFailure(SendChecks(to, subject, body)).Some? ==>
            inv == Invocation(Err(FirstFailure(SendChecks(to, subject, body)).value), None))
      && (FirstFailure(SendChecks(to, subject, body)).None? ==>
            inv.sent == Some(map["to" := JStr(Strip(to)), "subject" := JStr(Strip(subject)), "body" := JStr(Strip(body))]))
  {
    var checks := SendChecks(to, subject, body);
    if IsBlank(to) {
      FirstFailureAt(checks, 0);
    } else if IsBlank(subject) {
      FirstFailureAt(checks, 1);
    } else if IsBlank(body) {
      FirstFailureAt(checks, 2);
    } else if !IsEmail(Strip(to)) {
      FirstFailureAt(checks, 3);
    } else {
      FirstFailureIsFirst(checks);
    }
  }

  /** The report of a successful send: the stripped recipient and subject, the
      length of the stripped body, the service's answer as details, and the
      service's `success` flag, which defaults to false. */
  lemma {:induction false} SendEmailReport(to: string, subject: string, body: string, m: Mapping, reply: Reply)
    requires FirstFailure(SendChecks(to, subject, body)).None?
    requires Answer(m, SendEmailEndpoint, reply).Ok? && Answer(m, SendEmailEndpoint, reply).value.JObject?
    ensures var answer := Answer(m, SendEmailEndpoint, reply).value.fields;
      var r := SendEmail(to, subject, body, m, reply).result;
      && r.Ok? && r.value.JObject?
      && r.value.fields["recipient"] == JStr(Strip(to)) && IsEmail(Strip(to))
      && r.value.fields["subject"] == JStr(Strip(subject))
      && r.value.fields["body_length"] == JInt(|Strip(body)|) && |Strip(body)| > 0
      && r.value.fields["details"] == JObject(answer)
      && r.value.fields["success"] == (if "success" in answer then answer["success"] else JBool(false))
      && r.value.fields["messageId"] == (if "messageId" in answer then answer["messageId"] else JNull)
  {
    var answer := Answer(m, SendEmailEndpoint, reply);
    assert SendEmail(to, subject, body, m, reply).result == Report(Strip(to), Strip(subject), Strip(body), answer) by {
      var checks := SendChecks(to, subject, body);
      FirstFailureIsFirst(checks);
      assert Passes(checks[0]) && Passes(checks[1]) && Passes(checks[2]) && Passes(checks[3]);
    }
  }

  // ---------------------------------------------------------------------------
  // read_email

  /** The arguments of `read_email`. */
  datatype ReadFilter = ReadFilter(
    fromName: Option<string>,
    subjectContains: Option<string>,
    threadContains: Option<string>,
    after: Option<string>,
    maxResults: Option<Loose>,
    includeBody: Option<Loose>)

  /** The checks of `read_email`, in the order it makes them. */
  function ReadChecks(filter: ReadFilter): (cs: seq<Check>)
    ensures |cs| == 2
  {
    [ CheckThat("maxResults", filter.maxResults.Some? && !IsPositiveInt(filter.maxResults.value),
                "maxResults must be a positive integer"),
      CheckThat("after", filter.after.Some? && !IsDate(Strip(filter.after.value)),
                "after must be a date string in format YYYY-MM-DD")
    ]
  }

  const ReadKeys: set<string> := {"fromName", "subjectContains", "threadContains", "after", "maxResults", "includeBody"}

  /** The payload `read_email` posts: each text filter, stripped, only when it is
      supplied and not blank; `maxResults` as given and `includeBody` as a bool,
      each only when given. */
  predicate IsReadPayload(filter: ReadFilter, p: Payload) {
    && p.Keys <= ReadKeys
    && HasTextFilters(filter, p)
    && ("maxResults" in p <==> filter.maxResults.Some?)
    && ("maxResults" in p ==> p["maxResults"] == LooseJson(filter.maxResults.value))
    && ("includeBody" in p <==> filter.includeBody.Some?)
    && ("includeBody" in p ==> p["includeBody"] == JBool(Truthy(filter.includeBody.value)))
  }

  /** The four text filters of a `read_email` payload. */
  predicate HasTextFilters(filter: ReadFilter, p: Payload) {
    && ("fromName" in p <==> Supplied(filter.fromName))
    && ("fromName" in p ==> p["fromName"] == JStr(Strip(filter.fromName.value)))
    && ("subjectContains" in p <==> Supplied(filter.subjectContains))
    && ("subjectContains" in p ==> p["subjectContains"] == JStr(Strip(filter.subjectContains.value)))
    && ("threadContains" in p <==> Supplied(filter.threadContains))
    && ("threadContains" in p ==> p["threadContains"] == JStr(Strip(filter.threadContains.value)))
    && ("after" in p <==> Supplied(filter.after))
    && ("after" in p ==> p["after"] == JStr(Strip(filter.after.value)))
  }

  /** `read_email(...)` with the service answering `reply`, read through
      mapping `m`. */
  method ReadEmail(filter: ReadFilter, m: Mapping, reply: Reply) returns (inv: Invocation<Json>)
    ensures FirstFailure(ReadChecks(filter)).Some? ==>
      inv == Invocation(Err(FirstFailure(ReadChecks(filter)).value), None)
    ensures FirstFailure(ReadChecks(filter)).None? ==>
      && inv.sent.Some? && IsReadPayload(filter, inv.sent.value)
      && inv.result == Rewrap(ReadEmailPrefix, Answer(m, ReadEmailEndpoint, reply))
  {
    var checks := ReadChecks(filter);
    if filter.maxResults.Some? && !IsPositiveInt(filter.maxResults.value) {
      FirstFailureAt(checks, 0);
      return Invocation(Err(NewValidationError("maxResults must be a positive integer", Some("maxResults"))), None);
    }
    if filter.after.Some? && !IsDate(Strip(filter.after.value)) {
      FirstFailureAt(checks, 1);
      return Invocation(Err(NewValidationError("after must be a date string in format YYYY-MM-DD", Some("after"))), None);
    }
    FirstFailureIsFirst(checks);

    var payload := ReadPayload(filter);
    return Invocation(Rewrap(ReadEmailPrefix, Answer(m, ReadEmailEndpoint, reply)), Some(payload));
  }

  /** The payload of `read_email`, key by key. */
  method ReadPayload(filter: ReadFilter) returns (payload: Payload)
    ensures IsReadPayload(filter, payload)
  {
    payload := map[];
    if filter.fromName.Some? && !IsBlank(filter.fromName.value) {
      payload := payload["fromName" := JStr(Strip(filter.fromName.value))];
    }
    if filter.subjectContains.Some? && !IsBlank(filter.subjectContains.value) {
      payload := payload["subjectContains" := JStr(Strip(filter.subjectContains.value))];
    }
    if filter.threadContains.Some? && !IsBlank(filter.threadContains.value) {
      payload := payload["threadContains" := JStr(Strip(filter.threadContains.value))];
    }
    if filter.after.Some? && !IsBlank(filter.after.value) {
      payload := payload["after" := JStr(Strip(filter.after.value))];
    }
    assert HasTextFilters(filter, payload) && payload.Keys <= {"fromName", "subjectContains", "threadContains", "after"};
    if filter.maxResults.Some? {
      payload := payload["maxResults" := LooseJson(filter.maxResults.value)];
    }
    if filter.includeBody.Some? {
      payload := payload["includeBody" := JBool(Truthy(filter.includeBody.value))];
    }
  }

  /** The registered `_read_email` tool. */
  method ReadEmailTool(filter: ReadFilter, m: Mapping, reply: Reply) returns (out: Json)
    ensures FirstFailure(ReadChecks(filter)).Some? ==>
      out == ToolOutput(Err(FirstFailure(ReadChecks(filter)).value), ReadEmailPrefix)
    ensures FirstFailure(ReadChecks(filter)).None? ==>
      out == ToolOutput(Rewrap(ReadEmailPrefix, Answer(m, ReadEmailEndpoint, reply)), ReadEmailPrefix)
  {
    var inv := ReadEmail(filter, m, reply);
    out := ToolOutput(inv.result, ReadEmailPrefix);
  }

  /** An `after` filter that is given is either a date or rejected: the empty
      string and whitespace are refused on field "after" rather than dropped, so
      once validation passes, `after` is sent exactly when it is given, and then
      as a date. */
  lemma {:induction false} AfterIsDateOrRejected(filter: ReadFilter, p: Payload)
    ensures filter.after.Some? && IsBlank(filter.after.value)
            && (filter.maxResults.None? || IsPositiveInt(filter.maxResults.value)) ==>
      FirstFailure(ReadChecks(filter)) == Some(Validation("after must be a date string in format YYYY-MM-DD", Some("after")))
    ensures FirstFailure(ReadChecks(filter)).None? && IsReadPayload(filter, p) ==>
      && ("after" in p <==> filter.after.Some?)
      && ("after" in p ==> p["after"].JStr? && IsDate(p["after"].s))
  {
    var checks := ReadChecks(filter);
    if filter.after.Some? && IsBlank(filter.after.value)
       && (filter.maxResults.None? || IsPositiveInt(filter.maxResults.value)) {
      assert !IsDate(Strip(filter.after.value));
      FirstFailureAt(checks, 1);
    }
    if FirstFailure(checks).None? && IsReadPayload(filter, p) {
      FirstFailureIsFirst(checks);
      assert Passes(checks[1]);
    }
  }

  /** Every filter sent is trimmed and non-empty, and `maxResults`, when sent, is
      a positive integer (or `true`). */
  lemma {:induction false} ReadPayloadIsClean(filter: ReadFilter, p: Payload)
    requires FirstFailure(ReadChecks(filter)).None? && IsReadPayload(filter, p)
    ensures "fromName" in p ==> Trimmed(p["fromName"])
    ensures "subjectContains" in p ==> Trimmed(p["subjectContains"])
    ensures "threadContains" in p ==> Trimmed(p["threadContains"])
    ensures "after" in p ==> Trimmed(p["after"])
    ensures "maxResults" in p ==> (p["maxResults"].JInt? && p["maxResults"].i > 0) || p["maxResults"] == JBool(true)
  {
    var checks := ReadChecks(filter);
    FirstFailureIsFirst(checks);
    assert Passes(checks[0]);
    if "fromName" in p { StrippedIsTrimmed(filter.fromName.value); }
    if "subjectContains" in p { StrippedIsTrimmed(filter.subjectContains.value); }
    if "threadContains" in p { StrippedIsTrimmed(filter.threadContains.value); }
    if "after" in p { StrippedIsTrimmed(filter.after.value); }
  }
}
