/** The error taxonomy of the tool layer (src/macro_man/utils/exceptions.py).
    Python raises exceptions; the model returns them inside a Result. Besides the
    MacroManError hierarchy, native OS errors are a kind of their own: the file
    tools let them propagate unwrapped, and they are not MacroManErrors. */
module Errors {
  import opened Text

  datatype Option<+T> = None | Some(value: T)

  datatype Error =
    /** MacroManError(message, error_code) */
    | MacroMan(message: string, code: string)
    /** ValidationError(message, field) */
    | Validation(message: string, field: Option<string>)
    /** AuthenticationError(message) */
    | Authentication(message: string)
    /** AuthorizationError(message) */
    | Authorization(message: string)
    /** ServiceError(message, service) */
    | Service(message: string, service: Option<string>)
    /** ConfigurationError(message) */
    | Configuration(message: string)
    /** A native OSError (FileExistsError, NotADirectoryError, IsADirectoryError, ...) */
    | Os(errno: nat, strerror: string, filename: string)

  datatype Result<+T> = Ok(value: T) | Err(error: Error)

  const GenericCode := "GENERIC_ERROR"
  const ValidationCode := "VALIDATION_ERROR"
  const AuthenticationCode := "AUTHENTICATION_ERROR"
  const AuthorizationCode := "AUTHORIZATION_ERROR"
  const ServiceCode := "SERVICE_ERROR"
  const ConfigurationCode := "CONFIGURATION_ERROR"

  /** `isinstance(e, MacroManError)`: every kind but the native OS errors. */
  predicate IsMacroManError(e: Error) {
    !e.Os?
  }

  /** The `error_code` attribute; only MacroManErrors carry one. */
  function Code(e: Error): Option<string> {
    match e
    case MacroMan(_, c) => Some(c)
    case Validation(_, _) => Some(ValidationCode)
    case Authentication(_) => Some(AuthenticationCode)
    case Authorization(_) => Some(AuthorizationCode)
    case Service(_, _) => Some(ServiceCode)
    case Configuration(_) => Some(ConfigurationCode)
    case Os(_, _, _) => None
  }

  /** The `field` attribute, present on ValidationError only. */
  function FieldOf(e: Error): Option<string> {
    if e.Validation? then e.field else None
  }

  /** `str(e)`: the message for MacroManErrors (they pass it to Exception.__init__),
      and Python's "[Errno n] strerror: 'filename'" for OS errors. */
  function Str(e: Error): string {
    match e
    case Os(n, s, f) => "[Errno " + Digits(n) + "] " + s + ": '" + f + "'"
    case _ => e.message
  }

  /** MacroManError(message, error_code="GENERIC_ERROR"). */
  function NewMacroManError(message: string, code: Option<string>): (e: Error)
    ensures IsMacroManError(e) && Str(e) == message
    ensures code.None? ==> Code(e) == Some(GenericCode)
    ensures code.Some? ==> Code(e) == code
    ensures FieldOf(e) == None
  {
    MacroMan(message, match code case Some(c) => c case None => GenericCode)
  }

  /** MacroManError(message) with the default code: the error every tool wraps failures in. */
  function Generic(message: string): (e: Error)
    ensures IsMacroManError(e) && Str(e) == message && Code(e) == Some(GenericCode)
  {
    NewMacroManError(message, None)
  }

  /** ValidationError(message, field=None). */
  function NewValidationError(message: string, field: Option<string>): (e: Error)
    ensures IsMacroManError(e) && Str(e) == message
    ensures Code(e) == Some(ValidationCode) && FieldOf(e) == field
  {
    Validation(message, field)
  }

  /** AuthenticationError(message="Authentication failed"). */
  function NewAuthenticationError(message: Option<string>): (e: Error)
    ensures IsMacroManError(e) && Code(e) == Some(AuthenticationCode)
    ensures message.None? ==> Str(e) == "Authentication failed"
    ensures message.Some? ==> Str(e) == message.value
  {
    Authentication(match message case Some(m) => m case None => "Authentication failed")
  }

  /** AuthorizationError(message="Authorization failed"). */
  function NewAuthorizationError(message: Option<string>): (e: Error)
    ensures IsMacroManError(e) && Code(e) == Some(AuthorizationCode)
    ensures message.None? ==> Str(e) == "Authorization failed"
    ensures message.Some? ==> Str(e) == message.value
  {
    Authorization(match message case Some(m) => m case None => "Authorization failed")
  }

  /** ServiceError(message, service=None). */
  function NewServiceError(message: string, service: Option<string>): (e: Error)
    ensures IsMacroManError(e) && Str(e) == message && Code(e) == Some(ServiceCode)
    ensures e.Service? && e.service == service
  {
    Service(message, service)
  }

  /** ConfigurationError(message). */
  function NewConfigurationError(message: string): (e: Error)
    ensures IsMacroManError(e) && Str(e) == message && Code(e) == Some(ConfigurationCode)
  {
    Configuration(message)
  }

  /** Every subclass is a MacroManError, so `except MacroManError` catches each of
      them, and each subclass carries its own fixed code. */
  lemma {:induction false} SubclassesAreMacroManErrors(e: Error)
    ensures !e.Os? <==> IsMacroManError(e)
    ensures IsMacroManError(e) <==> Code(e).Some?
    ensures e.Validation? ==> Code(e) == Some(ValidationCode)
    ensures e.Authentication? ==> Code(e) == Some(AuthenticationCode)
    ensures e.Authorization? ==> Code(e) == Some(AuthorizationCode)
    ensures e.Service? ==> Code(e) == Some(ServiceCode)
    ensures e.Configuration? ==> Code(e) == Some(ConfigurationCode)
  {
  }

  /** The codes of the subclasses are pairwise distinct, so between two errors
      that are not base MacroManErrors the code alone tells the kind apart. */
  lemma {:induction false} SubclassCodesDistinct(e: Error, e': Error)
    requires IsMacroManError(e) && IsMacroManError(e') && !e.MacroMan? && !e'.MacroMan?
    requires Code(e) == Code(e')
    ensures e.Validation? <==> e'.Validation?
    ensures e.Authentication? <==> e'.Authentication?
    ensures e.Authorization? <==> e'.Authorization?
    ensures e.Service? <==> e'.Service?
    ensures e.Configuration? <==> e'.Configuration?
  {
  }
}
