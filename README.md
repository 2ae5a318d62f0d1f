# macro_man tool layer, modelled in Dafny

macro_man is an MCP server whose tools schedule meetings, list calendar
events, send and read e-mail, run shell commands, read the environment and
work on files. In front of every tool sits a layer that checks the
arguments in a fixed order, raises a typed error for the first bad one,
trims what it keeps into a sparse request payload, and maps the HTTP reply
of the backing service to a result or an error. This project models that
layer and proves what it promises.

- `errors.dfy` (`Errors`): the exception hierarchy of `utils/exceptions.py`
  as one `Error` datatype. `Result` replaces raising.
- `text.dfy` (`Text`): the Python string operations the checks rely on:
  `strip`, `lower`, substring search, `startswith` and integer formatting.
- `json.dfy` (`Json`): decoded JSON values. It also holds the loosely
  typed `maxResults`/`includeBody` arguments, since Python's `bool` is an
  `int`.
- `patterns.dfy` (`Patterns`): the date, date-time and e-mail regular
  expressions, as character-class predicates.
- `validation.dfy` (`Validation`): ordered checks where the first failure
  wins.
- `service.dfy` (`Service`): the reply of a service call, the mapping from
  status to error, the prefix a tool puts on errors, and the registered
  wrapper's error object.
- `basic.dfy` (`Basic`): `greet_user` and `echo_message`.
- `calendar.dfy` (`Calendar`): `_validate_emails`, `schedule_meet`,
  `list_events` and their tool wrappers. Payloads are built key by key, in
  methods.
- `email.dfy` (`Email`): `send_email`, `read_email` and their wrappers.
- `system.dfy` (`System`): the command guard, the response and timeout
  message of `execute_command`, and the filter of
  `get_environment_variables`.
- `name_order.dfy` (`NameOrder`): Python's ordering of `str`, proved to be
  a strict total order.
- `file_ops.dfy` (`FileOps`): a `FileSystem` class over a
  `map<Path, Node>`, with `read_file`, `write_file`, `list_directory`,
  `read_json_file` and `write_json_file` as methods. `list_directory` is a
  loop over the children followed by an insertion sort by name.

Things outside the program are parameters:

- the reply of an HTTP call (a `Reply` value);
- the outcome of `subprocess.run` (a `Run` value);
- the environment (a map);
- the JSON codec (functions `encode`/`decode`).

Every tool that calls a service (`schedule_meet`, `list_events`,
`send_email`, `read_email`) returns an `Invocation`: its result and the
payload it posted, which is `None` when validation refused the call. It also
takes a `Mapping`: `AsWritten` reads the reply as the source
does, and `Intended` as the source evidently means to (see "## Findings").

## Model

| member | source | states |
|---|---|---|
| Errors.NewMacroManError | src/macro_man/utils/exceptions.py:4-10 | a MacroManError's `str` is its message; the code defaults to GENERIC_ERROR; there is no field |
| Errors.Generic | src/macro_man/utils/exceptions.py:7-10 | the error a tool wraps failures in: its message and the code GENERIC_ERROR |
| Errors.NewValidationError | src/macro_man/utils/exceptions.py:13-18 | code VALIDATION_ERROR, message kept, field exactly the one given (None when omitted) |
| Errors.NewAuthenticationError | src/macro_man/utils/exceptions.py:21-25 | code AUTHENTICATION_ERROR, message "Authentication failed" unless another is given |
| Errors.NewAuthorizationError | src/macro_man/utils/exceptions.py:28-32 | code AUTHORIZATION_ERROR, message "Authorization failed" unless another is given |
| Errors.NewServiceError | src/macro_man/utils/exceptions.py:35-40 | code SERVICE_ERROR, message kept, optional service name kept |
| Errors.NewConfigurationError | src/macro_man/utils/exceptions.py:43-47 | code CONFIGURATION_ERROR, message kept |
| Errors.SubclassesAreMacroManErrors | src/macro_man/utils/exceptions.py:13-47 | every error kind but native OS errors is a MacroManError, exactly those carry a code, and each subclass has its own fixed code |
| Errors.SubclassCodesDistinct | src/macro_man/utils/exceptions.py:13-47 | the five subclass codes are pairwise distinct: two subclass errors with the same code are of the same kind |
| Text.Lower | src/macro_man/tools/system.py:143 | lower-casing keeps the length and maps each character on its own |
| Text.StripShape | src/macro_man/tools/basic.py:62 | `strip()` is the slice between the first and last non-whitespace characters, and it has no whitespace at either end |
| Text.StripIdempotent | src/macro_man/tools/basic.py:59-62 | stripping twice is stripping once |
| Text.BlankIffAllSpace | src/macro_man/tools/basic.py:59 | `not s or not s.strip()` holds exactly when every character is whitespace |
| Text.LowerIdempotent | src/macro_man/tools/system.py:143 | lower-casing twice is lower-casing once |
| Text.ContainsTransitive | src/macro_man/tools/system.py:142-144 | `in` is transitive: a substring of a substring is a substring |
| Patterns.DateTimeLength | src/macro_man/tools/calendar.py:89-97 | an accepted date-time has length 20 (ending in Z) or 25 (ending in a ±HH:MM offset) |
| Patterns.DateTimeIsStripped | src/macro_man/tools/email.py:187 | an accepted date or date-time has no surrounding whitespace |
| Patterns.EmailSplitUnique | src/macro_man/tools/calendar.py:55-62 | the e-mail pattern matches in one way only: the `@` and the last dot are determined |
| Patterns.EmailShape | src/macro_man/tools/email.py:47-49 | an accepted address has exactly one `@`, at least six characters and no surrounding whitespace |
| Validation.CheckThat | src/macro_man/tools/calendar.py:81-111 | a check fails exactly when its condition holds, with the given message on the given field |
| Validation.FirstFailure | src/macro_man/tools/calendar.py:81-111 | the error raised by ordered checks is a ValidationError with a field |
| Validation.FirstFailureIsFirst | src/macro_man/tools/calendar.py:81-111 | nothing is raised exactly when every check passes; otherwise the error is that of the first failing check, and every earlier check passes |
| Validation.FirstFailureAt | src/macro_man/tools/email.py:32-39 | a failing check preceded only by passing checks decides the message and the field |
| Validation.FirstFailureAppend | src/macro_man/tools/calendar.py:104-111 | checks run in two groups: the second group is reached only when the first passes |
| Service.StrippedIsTrimmed | src/macro_man/tools/calendar.py:113-121 | a stripped value that was not blank is non-empty and has nothing left to strip |
| Service.ReplyAsWritten | src/macro_man/tools/calendar.py:16-49 | as written: only a 200 reply with a decodable body is a success, and it returns that body; every failure is a generic error. A timeout gives "… service request timed out", a refused connection "Could not connect to … service at localhost:3000", another request error "… service request failed: reason", and an undecodable 200 body "Unexpected error calling … service: reason" |
| Service.ReplyResult | src/macro_man/tools/calendar.py:29-40 | as intended: the same successes; a non-200 reply gives "… service returned status N" plus ": message" from the body or ": text" when the body does not decode |
| Service.StatusErrorMessage | src/macro_man/tools/email.py:91-104 | the status error message for each shape of body: an object with "message", a body that does not decode, an object without "message" |
| Service.AsWrittenWrapsStatusErrors | src/macro_man/tools/calendar.py:40-49 | the two mappings agree on every reply except a non-200 status whose body raises no TypeError. There the as-written error is the intended one behind "Unexpected error calling … service: " |
| Service.StatusLineLost | src/macro_man/tools/email.py:139-158 | for a non-200 reply whose body raises no TypeError, and a service whose name does not start with "U", the intended message starts with the status line and the as-written one does not |
| Service.StatusErrorRewrapped | src/macro_man/tools/calendar.py:29-49 | on status 500 with body {"message": "boom"}, the intended error reads "Calendar service returned status 500: boom" and the as-written one does not start with the status line |
| Service.Rewrap | src/macro_man/tools/calendar.py:127-130 | a tool's `raise MacroManError(f"{prefix}: {e!s}")`: success passes unchanged; a failure becomes a generic error "prefix: str(e)" |
| Service.RewrappedStatusError | src/macro_man/tools/calendar.py:217-220 | what a tool would report under the intended mapping for a non-200 reply with a message: "prefix: … service returned status N: message" |
| Service.RewrappedStatusErrorAsWritten | src/macro_man/tools/calendar.py:29-49 | what a tool reports under the source's mapping for the same reply: "prefix: Unexpected error calling … service: … service returned status N: message" |
| Service.ToolOutput | src/macro_man/tools/calendar.py:236-255 | the registered wrapper returns the result on success, and otherwise `{success: false, error: str(e), message}` |
| Basic.GreetUser | src/macro_man/tools/basic.py:50-64 | rejected exactly when the name is blank, with "Name cannot be empty" on field "name"; otherwise "Hello, " + stripped name + "! Nice to meet you." |
| Basic.EchoMessage | src/macro_man/tools/basic.py:89-102 | rejected exactly when the message is empty, on field "message"; otherwise "Echo: " + the message, untrimmed |
| Basic.GreetUserStripInvariant | src/macro_man/tools/basic.py:59-62 | greeting a name and greeting its stripped form give the same result |
| Basic.GreetUserRejectsWhitespace | src/macro_man/tools/basic.py:59-60 | a name is rejected exactly when it is all whitespace, the empty name included |
| Basic.GreetingRoundTrip | src/macro_man/tools/basic.py:62 | the stripped name can be read back out of the greeting |
| Basic.EchoAcceptsWhatGreetingRejects | src/macro_man/tools/basic.py:59-102 | whitespace-only text is echoed but refused as a name |
| Calendar.AttendeeChecks | src/macro_man/tools/calendar.py:56-63 | one check per attendee, in list order, on field "attendees" |
| Calendar.ValidateEmails | src/macro_man/tools/calendar.py:52-65 | fails exactly when some attendee is not a non-blank string matching the e-mail pattern once stripped, with the first such error; otherwise returns the stripped addresses, same length and order, each a valid address |
| Calendar.MeetFieldChecks | src/macro_man/tools/calendar.py:81-103 | seven checks in source order: blank title, blank start, blank end, start format, end format, `sendUpdates`, the attendee list itself |
| Calendar.MeetChecks | src/macro_man/tools/calendar.py:81-111 | the field checks followed by one check per listed attendee |
| Calendar.AttendeesJson | src/macro_man/tools/calendar.py:122-123 | the attendee list posted holds the stripped addresses, same length and order |
| Calendar.CheckMeetFields | src/macro_man/tools/calendar.py:81-103 | the checks made one after another raise exactly the first failure of the seven checks |
| Calendar.ScheduleMeet | src/macro_man/tools/calendar.py:68-130 | any failing check gives its ValidationError and nothing is posted. Otherwise the meeting payload is posted and the service's answer under the given mapping is returned (Service.ReplyAsWritten for `AsWritten`, the source), with failures prefixed "Failed to schedule meeting" |
| Calendar.MeetPayload | src/macro_man/tools/calendar.py:113-125 | the payload has title, start and end stripped; description/timeZone stripped iff given and not blank; attendees iff given; sendUpdates iff given, untrimmed; no other keys |
| Calendar.ScheduleMeetTool | src/macro_man/tools/calendar.py:227-255 | the `_schedule_meet` tool's output: the service result under the given mapping, or the error object with message "Failed to schedule meeting" |
| Calendar.EventChecks | src/macro_man/tools/calendar.py:187-206 | five checks in source order: blank timeMin, blank timeMax, their formats, a `maxResults` that is not a positive int |
| Calendar.CheckEventFields | src/macro_man/tools/calendar.py:187-206 | the checks made one after another raise exactly the first failure of the five checks |
| Calendar.ListEvents | src/macro_man/tools/calendar.py:169-220 | any failing check gives its ValidationError and nothing is posted. Otherwise the events payload is posted and the service's answer under the given mapping is returned, with failures prefixed "Failed to list events" |
| Calendar.EventsPayload | src/macro_man/tools/calendar.py:208-215 | the payload has stripped timeMin/timeMax, maxResults iff given, stripped q iff not blank, and no other keys |
| Calendar.ListEventsTool | src/macro_man/tools/calendar.py:258-286 | the `_list_events` tool's output: the service result under the given mapping, or the error object with message "Failed to list events" |
| Calendar.MeetPayloadIsClean | src/macro_man/tools/calendar.py:113-125 | a posted meeting has trimmed non-empty texts, well-formed start and end, a known `sendUpdates` and valid attendee addresses |
| Calendar.MeetFieldsClean | src/macro_man/tools/calendar.py:81-125 | once all checks pass, the posted title, start, end, description and time zone are trimmed and non-empty, start and end are date-times, and `sendUpdates` is a known value |
| Calendar.MeetAttendeesClean | src/macro_man/tools/calendar.py:56-63 | once all checks pass, posted attendees form a non-empty list of valid addresses |
| Calendar.EventsPayloadIsClean | src/macro_man/tools/calendar.py:208-215 | a posted query has trimmed well-formed bounds, a positive (or `True`) `maxResults` and a trimmed `q` |
| Calendar.MeetRejectsBadOptions | src/macro_man/tools/calendar.py:99-111 | an unknown `sendUpdates` is refused on "sendUpdates", and an empty attendee list is refused on "attendees" |
| Email.SendChecks | src/macro_man/tools/email.py:32-49 | four checks in source order: blank to, blank subject, blank body, the stripped address against the e-mail pattern |
| Email.Report | src/macro_man/tools/email.py:54-66 | service failures are prefixed "Failed to send email"; a non-object answer gives the AttributeError of `.get`; an object answer gives a report of exactly seven keys: the recipient, subject and body length it was given, the answer as details, and the answer's success, message and messageId with the defaults false, "Email sent successfully" and null |
| Email.SendEmail | src/macro_man/tools/email.py:15-66 | nothing is posted exactly when validation fails; what is posted is exactly {to, subject, body}, each stripped and non-empty, with a valid address; once posted, the result is the report of the stripped arguments and the service's answer under the given mapping |
| Email.SendEmailTool | src/macro_man/tools/email.py:219-238 | the `_send_email` tool's output under the given mapping: the report, or the error object with message "Failed to send email" |
| Email.SendEmailChecksInOrder | src/macro_man/tools/email.py:32-49 | a blank to, then subject, then body, then a bad address is refused, each on its own field, and nothing is posted |
| Email.SendEmailReport | src/macro_man/tools/email.py:54-63 | the report holds the stripped recipient and subject, the stripped body's length, the service answer as details, and success false when the answer omits it |
| Email.ReadChecks | src/macro_man/tools/email.py:182-191 | two checks in source order: `maxResults` not a positive int, then `after` not a date once stripped |
| Email.ReadEmail | src/macro_man/tools/email.py:161-212 | any failing check gives its ValidationError and nothing is posted. Otherwise the filter payload is posted and the service's answer under the given mapping is returned, with failures prefixed "Failed to read emails" |
| Email.ReadPayload | src/macro_man/tools/email.py:193-206 | the payload holds each supplied non-blank text filter stripped, maxResults iff given, includeBody as a bool iff given, and no other keys |
| Email.ReadEmailTool | src/macro_man/tools/email.py:241-269 | the `_read_email` tool's output: the service result under the given mapping, or the error object with message "Failed to read emails" |
| Email.AfterIsDateOrRejected | src/macro_man/tools/email.py:187-191 | a blank `after` is refused on "after"; a posted `after` is a date |
| Email.ReadPayloadIsClean | src/macro_man/tools/email.py:194-206 | every posted filter is trimmed and non-empty, and a posted `maxResults` is positive or `True` |
| System.CommandRejection | src/macro_man/tools/system.py:138-144 | a command is refused exactly when it is blank or dangerous, with a ValidationError on "command": "Command cannot be empty" when blank, otherwise "Command contains potentially dangerous operations" |
| System.Response | src/macro_man/tools/system.py:157-163 | the response echoes the command and its output, and `success` is exactly `return_code == 0` |
| System.ExecuteCommand | src/macro_man/tools/system.py:127-173 | as written: success exactly for an accepted command that completed, with its response; a timeout gives "Command timed out after N seconds"; a process that fails to start gives "Failed to execute command: reason"; a refusal comes out as a generic error "Failed to execute command: " followed by the refusal's message, with no field |
| System.ExecuteCommandIntended | src/macro_man/tools/system.py:137-144 | as intended: a refused command gives exactly the refusal's ValidationError on "command"; otherwise as written |
| System.EnvironmentVariables | src/macro_man/tools/system.py:176-195 | with no prefix or the empty prefix the whole environment is returned |
| System.RejectedCommandNeverRuns | src/macro_man/tools/system.py:137-144 | a refused command gets the same error whatever the process would have done: it never runs |
| System.ExecuteCommandSwallowsValidation | src/macro_man/tools/system.py:171-173 | the two versions agree on accepted commands; on refused ones the generic message is the validation message behind "Failed to execute command: ", with a different code |
| System.EmptyCommandCounterexample | src/macro_man/tools/system.py:138-139 | on the empty command: as written, a generic error with no field; intended, the ValidationError on "command" |
| System.DangerousIffContains | src/macro_man/tools/system.py:142-144 | a command is dangerous iff its lower-cased form contains "rm -rf", "su", "chmod 777", "dd if=" or "mkfs", because "sudo" is subsumed by "su" |
| System.DangerousIgnoresCase | src/macro_man/tools/system.py:143 | commands that lower-case alike get the same verdict |
| System.HarmlessCommandRefused | src/macro_man/tools/system.py:142-144 | "echo result" is refused, because it contains "su" |
| System.EnvironmentFilterExact | src/macro_man/tools/system.py:188-192 | with a non-empty prefix, a name is kept iff it is in the environment and starts with the prefix, and its value is unchanged |
| System.EnvironmentFilterNarrows | src/macro_man/tools/system.py:186-192 | filtering twice is filtering once, and a longer prefix keeps a subset |
| NameOrder.NameLessIrreflexive | src/macro_man/tools/file_ops.py:132 | no name sorts before itself |
| NameOrder.NameLessTransitive | src/macro_man/tools/file_ops.py:132 | the name order is transitive |
| NameOrder.NameLessTotal | src/macro_man/tools/file_ops.py:132 | any two different names are ordered |
| NameOrder.NameLessAsymmetric | src/macro_man/tools/file_ops.py:132 | two names are never each before the other |
| NameOrder.NameLeTotalOrder | src/macro_man/tools/file_ops.py:132 | `<=` on names is total, antisymmetric and transitive |
| FileOps.WriteError | src/macro_man/tools/file_ops.py:58-71 | the error `write_file` raises: a ValidationError on "file_path" exactly when the path exists and overwrite is off; otherwise the OS errors of the parent mkdir or of opening a directory |
| FileOps.Utf8Length | src/macro_man/tools/file_ops.py:124 | a file's `st_size` is its UTF-8 length: between one and four bytes per character |
| FileOps.FileSystem.ReadFile | src/macro_man/tools/file_ops.py:14-44 | a missing path gives "File does not exist: p"; a directory gives "Path is not a file: p"; both on "file_path". Otherwise the whole content, with "\r\n" and a lone "\r" read as "\n" |
| FileOps.Newlines | src/macro_man/tools/file_ops.py:33-34 | text read in text mode holds no "\r", is no longer than the stored text, and is the stored text itself when that has no "\r" |
| FileOps.NewlinesPlainPrefix | src/macro_man/tools/file_ops.py:33-34 | text without "\r" is read as written, whatever follows it |
| FileOps.NewlinesAtBreak | src/macro_man/tools/file_ops.py:33-34 | "\r\n" and a lone "\r" each end a line with "\n" |
| FileOps.FileSystem.WriteFile | src/macro_man/tools/file_ops.py:47-88 | fails exactly with WriteError, and then nothing changes. Otherwise the missing parents are created, p holds the content, the tree stays well formed, and the report is {true, p, len(content), overwrite} |
| FileOps.FileSystem.MakeDirs | src/macro_man/tools/file_ops.py:68 | `mkdir(parents=True, exist_ok=True)`: each missing prefix becomes a directory, from the root down |
| FileOps.FileSystem.ListDirectory | src/macro_man/tools/file_ops.py:91-144 | a missing path gives "Directory does not exist"; a file gives "Path is not a directory"; both on "directory_path". Otherwise a listing: exactly the shown children, each with its entry, strictly sorted by name |
| FileOps.FileSystem.GatherEntries | src/macro_man/tools/file_ops.py:115-129 | the loop collects each shown child once with its entry; hidden names are skipped unless asked for |
| FileOps.FileSystem.ReadJsonFile | src/macro_man/tools/file_ops.py:147-168 | the text `read_file` returns is decoded, and a decoded file is returned; a decode failure is "Invalid JSON in file" on "file_path"; every read failure, ValidationErrors included, becomes a generic "Failed to read JSON file: …" |
| FileOps.FileSystem.WriteJsonFile | src/macro_man/tools/file_ops.py:171-197 | writes the encoded text with `write_file`; its errors, "File already exists" included, pass through unchanged |
| FileOps.WriteThenReadFile | src/macro_man/tools/file_ops.py:68-71 | after a successful write, reading the path returns the content with its line breaks read as "\n", so exactly the content when it has no "\r"; every other existing path keeps its node |
| FileOps.WriteThenRead | src/macro_man/tools/file_ops.py:186-187 | a value written as JSON is read back as the same value when the decoder inverts the encoder and the encoding has no "\r" (`json.dumps` escapes it) |
| FileOps.SplicedSorted | src/macro_man/tools/file_ops.py:132 | inserting after the names not greater keeps a list sorted, and strictly sorted when the name is new |
| FileOps.InsertByName | src/macro_man/tools/file_ops.py:132 | one insertion step: the result is the list plus the entry, sorted |
| FileOps.SortByName | src/macro_man/tools/file_ops.py:132 | `items.sort(key=name)` returns a permutation sorted by name, strictly when the names are distinct |
| FileOps.SortedGatheringIsListing | src/macro_man/tools/file_ops.py:115-132 | sorting the gathered entries yields the listing |
| FileOps.ChildNamesExact | src/macro_man/tools/file_ops.py:115 | n is a child name of dir exactly when dir/n exists |
| FileOps.MkDirsFacts | src/macro_man/tools/file_ops.py:68 | making parents keeps every existing entry, and adds only missing prefixes, as directories |
| FileOps.WrittenFacts | src/macro_man/tools/file_ops.py:68-71 | after a write, p holds the content, every other existing entry is unchanged, new entries are directories on the way to p, and the tree is well formed |
| FileOps.WrittenWellFormed | src/macro_man/tools/file_ops.py:68-71 | a write keeps every entry inside a directory |
| FileOps.WriteErrorCases | src/macro_man/tools/file_ops.py:61-71 | the overwrite guard's exact error; overwriting an existing file and creating a file inside an existing directory both succeed |
| FileOps.AncestorsAreDirs | src/macro_man/tools/file_ops.py:68 | in a well-formed tree every proper prefix of an existing path is a directory |
| FileOps.ListingIsUnique | src/macro_man/tools/file_ops.py:115-132 | two listings of the same directory are equal, so the order `iterdir` yields does not show |
| FileOps.SameNamesSameOrder | src/macro_man/tools/file_ops.py:132 | two strictly sorted lists over the same names have them at the same places |

## Left out

- HTTP, subprocesses, the real file system, the clock and the environment
  are not modelled. A reply, a process outcome, an in-memory tree and a
  map stand in for them.
- The settings that give the service URL are not modelled, nor logging,
  server bootstrap, transports or the `register_*` decorator wiring. Only
  the body of each registered wrapper is modelled.
- `add_numbers`, `multiply_numbers` and the disk percentage use floating
  point; they are not modelled.
- `get_system_info`, `get_process_info`, `get_system_stats` and
  `get_python_info` depend on host libraries and are not modelled.
- `json.dumps`/`json.loads` are abstract functions. `json.dumps` of the
  wrapper's output is not modelled; the output is the JSON value before
  encoding.
- Json: numbers are integers; JSON floats are not modelled, so a reply
  body, a "message" value or `write_json_file` data holding a float cannot
  be expressed.
- Json.PyStr: `str()` of a list or dict inside an error message is a
  placeholder, not Python's repr.
- Text.Lower: only ASCII capitals and the Kelvin sign are lowered. Other
  characters are kept, which is all the deny-list can observe.
- Patterns.IsDigit: `\d` is taken as ASCII digits; Python also accepts
  other Unicode digits.
- Arguments of the wrong Python type are not modelled, except where the
  source checks or converts the type: attendees and `maxResults` are
  checked, and `includeBody` is converted with `bool()`. A string
  field is always a string.
- The TypeError text for `"message" in detail` on a decoded non-object
  body follows Python 3.11.
- File paths are absolute component lists. Relative paths, `..`,
  symbolic links and permissions are not modelled, and
  `str(path.absolute())` is the rendered absolute path.
- FileOps.FileSystem.ReadFile: decoding errors, PermissionError and the
  generic "Failed to read file" wrapper for other exceptions are not
  modelled; a file's content is its text.
- FileOps.FileSystem.WriteFile stores the text as given, as text mode does
  on POSIX; the translation of "\n" to the platform's line separator on
  other systems is not modelled.
- FileOps.FileSystem.WriteFile: PermissionError, a full disk and the
  generic "Failed to write file" wrapper are not modelled. The OS errors
  modelled are EEXIST, ENOTDIR and EISDIR. They are checked before any
  directory is made, which gives the same result, since none of them can
  arise after a partial mkdir.
- FileOps.FileSystem.ListDirectory: the `modified` time is not modelled,
  nor the "Failed to list directory" wrapper for unexpected exceptions.
- FileOps.FileSystem.WriteJsonFile: an encoder failure and the generic
  "Failed to write JSON file" wrapper are not modelled.
- The tests of a superseded e-mail module (`tests/test_email_tools.py`)
  are not modelled, because they name functions the e-mail module does not
  have.
- The functions of `system.py` are nested inside `register_system_tools`;
  here they are top-level functions.

## Findings

| source | as written | input that shows it | evidently intended | confidence | as-written member | corrected member |
|---|---|---|---|---|---|---|
| src/macro_man/tools/calendar.py:29-49 | the MacroManError raised for a non-200 status is inside the `try`, so the final `except Exception` re-raises it as "Unexpected error calling calendar service: Calendar service returned status N…". email.py:91-113 and 139-158 do the same | status 500 with body {"message": "boom"} | "Calendar service returned status 500: boom", as the message is built | not executed | Service.ReplyAsWritten (every tool with mapping `AsWritten`; shown by Service.StatusErrorRewrapped, Service.StatusLineLost and Service.RewrappedStatusErrorAsWritten) | Service.ReplyResult (every tool with mapping `Intended`; Service.StatusErrorMessage, Service.RewrappedStatusError) |
| src/macro_man/tools/system.py:137-173 | both refusals of `execute_command` are raised inside the `try` and caught by `except Exception`, so the caller gets a generic error "Failed to execute command: …" with no field | command "" | ValidationError "Command cannot be empty" on field "command" | not executed | System.ExecuteCommand (shown by System.EmptyCommandCounterexample) | System.ExecuteCommandIntended (System.ExecuteCommandSwallowsValidation) |
