/** The two string tools of src/macro_man/tools/basic.py. */
module Basic {
  import opened Errors
  import opened Text

  const GreetingHead := "Hello, "
  const GreetingTail := "! Nice to meet you."
  const EchoHead := "Echo: "

  /** `greet_user(name)`: a blank name is a ValidationError on "name"; any other
      name is greeted by its stripped form. */
  function GreetUser(name: string): (r: Result<string>)
    ensures r.Err? <==> IsBlank(name)
    ensures r.Err? ==> r.error == Validation("Name cannot be empty", Some("name"))
    ensures r.Ok? ==> r.value == GreetingHead + Strip(name) + GreetingTail
  {
    if IsBlank(name) then Err(NewValidationError("Name cannot be empty", Some("name")))
    else Ok(GreetingHead + Strip(name) + GreetingTail)
  }

  /** `echo_message(message)`: only the empty string is rejected. */
  function EchoMessage(message: string): (r: Result<string>)
    ensures r.Err? <==> message == ""
    ensures r.Err? ==> r.error == Validation("Message cannot be empty", Some("message"))
    ensures r.Ok? ==> r.value == EchoHead + message
  {
    if message == "" then Err(NewValidationError("Message cannot be empty", Some("message")))
    else Ok(EchoHead + message)
  }

  /** The name taken back out of a greeting. */
  function GreetedName(greeting: string): (name: string)
    requires |greeting| >= |GreetingHead| + |GreetingTail|
    ensures |name| == |greeting| - |GreetingHead| - |GreetingTail|
  {
    greeting[|GreetingHead|..|greeting| - |GreetingTail|]
  }

  // ---------------------------------------------------------------------------

  /** Greeting is insensitive to surrounding whitespace: stripping the name first
      changes nothing, whether the name is accepted or rejected. */
  lemma {:induction false} GreetUserStripInvariant(name: string)
    ensures GreetUser(Strip(name)) == GreetUser(name)
  {
    StripIdempotent(name);
  }

  /** A name is rejected exactly when it is empty or consists of whitespace only. */
  lemma {:induction false} GreetUserRejectsWhitespace(name: string)
    ensures GreetUser(name).Err? <==> AllSpace(name)
  {
    BlankIffAllSpace(name);
  }

  /** A greeting carries the stripped name and nothing else: the name can be read
      back from it, and it has no whitespace at either end. */
  lemma {:induction false} GreetingRoundTrip(name: string)
    requires GreetUser(name).Ok?
    ensures GreetedName(GreetUser(name).value) == Strip(name)
    ensures var n := GreetedName(GreetUser(name).value);
      n != [] && !IsSpace(n[0]) && !IsSpace(n[|n| - 1])
  {
    var g := GreetUser(name).value;
    assert g == GreetingHead + Strip(name) + GreetingTail;
    assert g[|GreetingHead|..|g| - |GreetingTail|] == Strip(name);
    StripShape(name);
  }

  /** The two tools disagree on whitespace-only input: the echo accepts it and the
      greeting rejects it. */
  lemma {:induction false} EchoAcceptsWhatGreetingRejects(s: string)
    requires s != [] && AllSpace(s)
    ensures EchoMessage(s).Ok? && GreetUser(s).Err?
  {
    BlankIffAllSpace(s);
  }
}
