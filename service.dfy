/** The four `_*_via_service` functions of the calendar and e-mail tools share one
    shape: POST a JSON payload, return the decoded body on status 200, and turn
    every other outcome into a MacroManError. The HTTP call is not modelled: the
    reply it produced is a parameter, and a tool's outcome records the payload it
    posted, so "no request is made" is something a contract can state. */
module Service {
  import opened Errors
  import opened Text
  import opened Json

  /** What `httpx.post` produced. */
  datatype Reply =
    | Answered(status: int, body: Parse, text: string)
    | TimedOut                     // httpx.TimeoutException
    | ConnectFailed                // httpx.ConnectError
    | RequestFailed(reason: string) // any other httpx.RequestError, with str(e)

  /** How one `_*_via_service` function names its service in its messages. */
  datatype Endpoint = Endpoint(name: string, lowerName: string, connectName: string)

  const ScheduleMeetEndpoint := Endpoint("Calendar service", "calendar service", "calendar service")
  const ListEventsEndpoint := Endpoint("Calendar list service", "calendar list service", "calendar service")
  const SendEmailEndpoint := Endpoint("Email service", "email service", "email service")
  const ReadEmailEndpoint := Endpoint("Email read service", "email read service", "email service")

  /** A JSON object posted to the service. */
  type Payload = map<string, Json>

  /** What a tool did: its result, and the payload it posted (None when it
      returned before calling the service). */
  datatype Invocation<T> = Invocation(result: Result<T>, sent: Option<Payload>)

  /** An optional string field is sent exactly when it is given and not blank. */
  predicate Supplied(v: Option<string>) {
    v.Some? && !IsBlank(v.value)
  }

  /** A payload string that is not empty and has no whitespace left to strip. */
  predicate Trimmed(j: Json) {
    j.JStr? && j.s != "" && Strip(j.s) == j.s
  }

  /** A stripped value that was not blank is a trimmed payload string. */
  lemma {:induction false} StrippedIsTrimmed(s: string)
    requires !IsBlank(s)
    ensures Trimmed(JStr(Strip(s)))
  {
    StripIdempotent(s);
  }

  /** The tail the error message gets from the body of a non-200 reply, or the
      TypeError that `"message" in detail` / `detail['message']` raises on a body
      that is not a JSON object. */
  datatype Detail = Suffix(text: string) | Raised(typeError: string)

  /** The inner `try` of the non-200 branch: a body that does not decode
      (ValueError) appends the raw text; an object appends its "message" when it
      has one; a list or string that contains "message" cannot be indexed by it,
      and a scalar cannot be searched at all. */
  function ErrorDetail(body: Parse, text: string): Detail {
    match body
    case Unparsable(_) => Suffix(": " + text)
    case Parsed(j) =>
      match j
      case JObject(f) => if "message" in f then Suffix(": " + PyStr(f["message"])) else Suffix("")
      case JList(xs) =>
        if JStr("message") in xs then Raised("list indices must be integers or slices, not str") else Suffix("")
      case JStr(s) =>
        if Contains(s, "message") then Raised("string indices must be integers, not 'str'") else Suffix("")
      case _ => Raised("argument of type '" + TypeName(j) + "' is not iterable")
  }

  function StatusLine(ep: Endpoint, status: int): string {
    ep.name + " returned status " + IntText(status)
  }

  function Unexpected(ep: Endpoint, cause: string): Error {
    Generic("Unexpected error calling " + ep.lowerName + ": " + cause)
  }

  /** The mapping as the source writes it: the MacroManError raised for a non-200
      status is itself inside the `try`, so the final `except Exception` catches it
      and wraps it once more as an "Unexpected error". */
  function ReplyAsWritten(ep: Endpoint, reply: Reply): (r: Result<Json>)
    ensures r.Ok? <==> reply.Answered? && reply.status == 200 && reply.body.Parsed?
    ensures r.Ok? ==> r.value == reply.body.value
    ensures r.Err? ==> Code(r.error) == Some(GenericCode)
    ensures reply.TimedOut? ==> r == Err(Generic(ep.name + " request timed out"))
    ensures reply.ConnectFailed? ==>
      r == Err(Generic("Could not connect to " + ep.connectName + " at localhost:3000"))
    ensures reply.RequestFailed? ==> r == Err(Generic(ep.name + " request failed: " + reply.reason))
    ensures reply.Answered? && reply.status == 200 && reply.body.Unparsable? ==>
      r == Err(Unexpected(ep, reply.body.reason))
  {
    match reply
    case TimedOut => Err(Generic(ep.name + " request timed out"))
    case ConnectFailed => Err(Generic("Could not connect to " + ep.connectName + " at localhost:3000"))
    case RequestFailed(reason) => Err(Generic(ep.name + " request failed: " + reason))
    case Answered(status, body, text) =>
      if status == 200 then
        match body
        case Parsed(j) => Ok(j)
        case Unparsable(reason) => Err(Unexpected(ep, reason))
      else
        match ErrorDetail(body, text)
        case Suffix(tail) => Err(Unexpected(ep, Str(Generic(StatusLine(ep, status) + tail))))
        case Raised(t) => Err(Unexpected(ep, t))
  }

  /** The mapping as evidently intended: the status error reaches the caller as
      raised. Only the non-200 branch differs. */
  function ReplyResult(ep: Endpoint, reply: Reply): (r: Result<Json>)
    ensures r.Ok? <==> reply.Answered? && reply.status == 200 && reply.body.Parsed?
    ensures r.Ok? ==> r.value == reply.body.value
    ensures r.Err? ==> Code(r.error) == Some(GenericCode)
    ensures reply.Answered? && reply.status != 200 && ErrorDetail(reply.body, reply.text).Suffix? ==>
      StartsWith(Str(r.error), StatusLine(ep, reply.status))
  {
    match reply
    case Answered(status, body, text) =>
      if status != 200 then
        match ErrorDetail(body, text)
        case Suffix(tail) => Err(Generic(StatusLine(ep, status) + tail))
        case Raised(t) => Err(Unexpected(ep, t))
      else ReplyAsWritten(ep, reply)
    case _ => ReplyAsWritten(ep, reply)
  }

  /** Which mapping a tool applies: the source's own, or the evidently intended
      one. Every tool takes it as a parameter, so each tool's contract holds for
      both. */
  datatype Mapping = AsWritten | Intended

  function Answer(m: Mapping, ep: Endpoint, reply: Reply): Result<Json> {
    match m
    case AsWritten => ReplyAsWritten(ep, reply)
    case Intended => ReplyResult(ep, reply)
  }

  /** A non-200 reply whose body is an object with a "message" yields an error
      naming the status and carrying that message, and one whose body does not
      decode yields the status and the raw text. */
  lemma {:induction false} StatusErrorMessage(ep: Endpoint, status: int, body: Parse, text: string)
    requires status != 200
    ensures body.Parsed? && body.value.JObject? && "message" in body.value.fields ==>
      Str(ReplyResult(ep, Answered(status, body, text)).error)
        == StatusLine(ep, status) + ": " + PyStr(body.value.fields["message"])
    ensures body.Unparsable? ==>
      Str(ReplyResult(ep, Answered(status, body, text)).error) == StatusLine(ep, status) + ": " + text
    ensures body.Parsed? && body.value.JObject? && "message" !in body.value.fields ==>
      Str(ReplyResult(ep, Answered(status, body, text)).error) == StatusLine(ep, status)
  {
    assert StatusLine(ep, status) + "" == StatusLine(ep, status);
  }

  /** The two mappings agree except on non-200 replies whose body does not raise a
      TypeError; there the as-written message is the intended one wrapped once
      more, so the status and the service's message are still in it. */
  lemma {:induction false} AsWrittenWrapsStatusErrors(ep: Endpoint, reply: Reply)
    ensures !(reply.Answered? && reply.status != 200 && ErrorDetail(reply.body, reply.text).Suffix?) ==>
      ReplyAsWritten(ep, reply) == ReplyResult(ep, reply)
    ensures reply.Answered? && reply.status != 200 && ErrorDetail(reply.body, reply.text).Suffix? ==>
      Str(ReplyAsWritten(ep, reply).error)
        == "Unexpected error calling " + ep.lowerName + ": " + Str(ReplyResult(ep, reply).error)
  {
  }

  /** Under the as-written mapping a status error never reaches the caller with
      the message the source builds for it: the message starts with "Unexpected
      error calling" instead of with the status line. */
  lemma {:induction false} StatusLineLost(ep: Endpoint, reply: Reply)
    requires reply.Answered? && reply.status != 200 && ErrorDetail(reply.body, reply.text).Suffix?
    requires ep.name != [] && ep.name[0] != 'U'
    ensures StartsWith(Str(ReplyResult(ep, reply).error), StatusLine(ep, reply.status))
    ensures !StartsWith(Str(ReplyAsWritten(ep, reply).error), StatusLine(ep, reply.status))
  {
    AsWrittenWrapsStatusErrors(ep, reply);
    var bad := Str(ReplyAsWritten(ep, reply).error);
    assert bad[0] == 'U';
    assert StatusLine(ep, reply.status)[0] == ep.name[0];
  }

  /** The discrepancy on a concrete reply: `schedule_meet`'s service answers
      status 500 with body {"message": "boom"}. */
  lemma StatusErrorRewrapped()
    ensures var reply := Answered(500, Parsed(JObject(map["message" := JStr("boom")])), "");
      && Str(ReplyResult(ScheduleMeetEndpoint, reply).error) == StatusLine(ScheduleMeetEndpoint, 500) + ": boom"
      && !StartsWith(Str(ReplyAsWritten(ScheduleMeetEndpoint, reply).error), StatusLine(ScheduleMeetEndpoint, 500))
  {
    var reply := Answered(500, Parsed(JObject(map["message" := JStr("boom")])), "");
    assert ErrorDetail(reply.body, reply.text) == Suffix(": boom");
    StatusErrorMessage(ScheduleMeetEndpoint, 500, reply.body, "");
    StatusLineLost(ScheduleMeetEndpoint, reply);
  }

  /** `raise MacroManError(f"{prefix}: {e!s}")` around a call: a failure becomes a
      generic error whose message is the prefix, a colon and the original message;
      a success passes through. */
  function Rewrap<T>(prefix: string, r: Result<T>): (w: Result<T>)
    ensures r.Ok? ==> w == r
    ensures r.Err? ==>
      && w.Err? && Code(w.error) == Some(GenericCode)
      && StartsWith(Str(w.error), prefix + ": ")
      && Str(w.error)[|prefix| + 2..] == Str(r.error)
  {
    match r
    case Ok(v) => Ok(v)
    case Err(e) => Err(Generic(prefix + ": " + Str(e)))
  }

  /** What a tool would report under the intended mapping for a non-200 reply
      whose body is an object with a "message": its own prefix, then the status
      line, then the service's message. */
  lemma {:induction false} RewrappedStatusError(prefix: string, ep: Endpoint, status: int,
                                                fields: map<string, Json>, text: string)
    requires status != 200 && "message" in fields
    ensures var w := Rewrap(prefix, ReplyResult(ep, Answered(status, Parsed(JObject(fields)), text)));
      w.Err? && Str(w.error) == prefix + ": " + StatusLine(ep, status) + ": " + PyStr(fields["message"])
  {
    StatusErrorMessage(ep, status, Parsed(JObject(fields)), text);
  }

  /** What a tool reports under the source's mapping for the same reply: its own
      prefix, then "Unexpected error calling" and the service, and only then the
      status line and the service's message. */
  lemma {:induction false} RewrappedStatusErrorAsWritten(prefix: string, ep: Endpoint, status: int,
                                                         fields: map<string, Json>, text: string)
    requires status != 200 && "message" in fields
    ensures var w := Rewrap(prefix, ReplyAsWritten(ep, Answered(status, Parsed(JObject(fields)), text)));
      w == Err(Generic(prefix + ": " + ("Unexpected error calling " + ep.lowerName + ": "
                                        + (StatusLine(ep, status) + (": " + PyStr(fields["message"]))))))
  {
    var reply := Answered(status, Parsed(JObject(fields)), text);
    var tail := ": " + PyStr(fields["message"]);
    calc {
      Rewrap(prefix, ReplyAsWritten(ep, reply));
    == { assert ErrorDetail(reply.body, reply.text) == Suffix(tail); }
      Rewrap(prefix, Err(Unexpected(ep, Str(Generic(StatusLine(ep, status) + tail)))));
    ==
      Rewrap(prefix, Err(Unexpected(ep, StatusLine(ep, status) + tail)));
    }
  }

  /** The registered tool wrapper: the result itself on success, and on any
      exception the object {success: false, error: str(e), message: failureMessage}.
      Serialising it with `json.dumps` is not modelled. */
  function ToolOutput(r: Result<Json>, failureMessage: string): (out: Json)
    ensures r.Ok? ==> out == r.value
    ensures r.Err? ==>
      && out.JObject? && out.fields.Keys == {"success", "error", "message"}
      && out.fields["success"] == JBool(false)
      && out.fields["error"] == JStr(Str(r.error))
      && out.fields["message"] == JStr(failureMessage)
  {
    match r
    case Ok(v) => v
    case Err(e) => JObject(map["success" := JBool(false), "error" := JStr(Str(e)), "message" := JStr(failureMessage)])
  }
}
