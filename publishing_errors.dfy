/**
 * The two error records of the publishing core: PublishingError, raised when
 * a provisioning step fails, and ValidationError, one rule violation found in
 * a publish or update request.
 */
module PublishingErrors {
  import opened Wrappers
  import opened Strings

  /**
   * A provisioning-step failure.  The wrapped Go `error` is represented by
   * the text its Error() method returns; None stands for a nil cause.
   */
  datatype PublishingError = PublishingError(
    code: string,
    message: string,
    details: string,
    cause: Option<string>,
    namespace: string,
    modelName: string,
    step: string)

  /** (*PublishingError).Error: "Code: Message", then " - Details" when Details is non-empty. */
  function ErrorText(e: PublishingError): (r: string)
    ensures HasPrefix(r, e.code + ": " + e.message)
    ensures e.details == "" ==> |r| == |e.code| + 2 + |e.message|
    ensures e.details != "" ==>
              HasSuffix(r, " - " + e.details) && |r| == |e.code| + 2 + |e.message| + 3 + |e.details|
  {
    if e.details != "" then e.code + ": " + e.message + " - " + e.details
    else e.code + ": " + e.message
  }

  /** (*PublishingError).Unwrap: the wrapped cause. */
  function Unwrap(e: PublishingError): Option<string>
  {
    e.cause
  }

  /** NewPublishingError: Details is the cause's text when a cause is given, "" otherwise. */
  function NewPublishingError(code: string, message: string, namespace: string, modelName: string,
                              step: string, cause: Option<string>): (e: PublishingError)
    ensures e.code == code && e.message == message && e.namespace == namespace
    ensures e.modelName == modelName && e.step == step
    ensures Unwrap(e) == cause
    ensures e.details == (if cause.Some? then cause.value else "")
  {
    var details := if cause.Some? then cause.value else "";
    PublishingError(code, message, details, cause, namespace, modelName, step)
  }

  /**
   * Unwrap gives back exactly the cause a PublishingError was built from:
   * rebuilding an error from its own fields and unwrapped cause yields the
   * same error, whenever its details are its cause's text.
   */
  lemma UnwrapRebuilds(e: PublishingError)
    requires e.details == (if e.cause.Some? then e.cause.value else "")
    ensures NewPublishingError(e.code, e.message, e.namespace, e.modelName, e.step, Unwrap(e)) == e
  {
  }

  /**
   * The text of a freshly built PublishingError carries the cause's text
   * exactly when there is a cause whose own text is non-empty; a nil cause
   * and a cause with an empty message both give the short form.
   */
  lemma NewErrorText(code: string, message: string, namespace: string, modelName: string,
                     step: string, cause: Option<string>)
    ensures var r := ErrorText(NewPublishingError(code, message, namespace, modelName, step, cause));
      && (cause.None? || cause.value == "" ==> r == code + ": " + message)
      && (cause.Some? && cause.value != "" ==> r == code + ": " + message + " - " + cause.value)
  {
  }

  /** The fields a validation rule can name; Name gives the string the source uses. */
  datatype Field =
    | Model | TenantId | RequestsPerMinute | RequestsPerHour | RateLimiting
    | ModelType | ExternalPath | PublicHostname | RequireApiKey

  function Name(f: Field): string
  {
    match f
    case Model => "model"
    case TenantId => "tenantId"
    case RequestsPerMinute => "rateLimiting.requestsPerMinute"
    case RequestsPerHour => "rateLimiting.requestsPerHour"
    case RateLimiting => "rateLimiting"
    case ModelType => "modelType"
    case ExternalPath => "externalPath"
    case PublicHostname => "publicHostname"
    case RequireApiKey => "authentication.requireApiKey"
  }

  /** Exactly the three rate-limit fields have names starting with "rateLimiting". */
  lemma RateLimitNames(f: Field)
    ensures HasPrefix(Name(f), "rateLimiting") <==> f in {RequestsPerMinute, RequestsPerHour, RateLimiting}
  {
    var n := Name(f);
    if f in {TenantId, ExternalPath, PublicHostname, RequireApiKey} {
      // same length or longer, but the first letter already differs
      assert |n| >= 12 ==> n[..12][0] == n[0] != 'r';
    }
  }

  /** The tests of validateHostname, in the order the source runs them. */
  datatype HostnameProblem =
    | Protocol | Path | Empty | TooLong | BadCharacters | Consecutive | BadEdge
    | EmptySubdomain | LongSubdomain | NotQualified

  /** Why a field was rejected; Message gives the text the source attaches. */
  datatype Reason =
    | ModelInvalid(cause: string)
    | TenantMissing
    | MinuteNotPositive
    | HourNotPositive
    | MinuteAboveHour
    | UnknownModelType
    | ModelTypeChanged
    | PathNotAbsolute
    | BadHostname(problem: HostnameProblem)
    | ApiKeyNotRequired

  const ModelInvalidPrefix := "Model validation failed: "

  /** The message of a failed model check: a fixed prefix, then the cause's text. */
  function ModelInvalidMessage(cause: string): (m: string)
    ensures HasPrefix(m, ModelInvalidPrefix) && m[|ModelInvalidPrefix|..] == cause
  {
    ModelInvalidPrefix + cause
  }

  /** The message of each reason; a failed model check quotes its cause after a fixed prefix. */
  function Message(r: Reason): string
  {
    match r
    case ModelInvalid(cause) => ModelInvalidMessage(cause)
    case TenantMissing => "Tenant ID is required"
    case MinuteNotPositive => "Requests per minute must be greater than 0"
    case HourNotPositive => "Requests per hour must be greater than 0"
    case MinuteAboveHour => "Requests per minute cannot exceed requests per hour"
    case UnknownModelType => "Model type must be 'traditional' or 'openai'"
    case ModelTypeChanged => "Model type cannot be changed after publishing"
    case PathNotAbsolute => "External path must start with '/'"
    case ApiKeyNotRequired => "API key authentication is required"
    case BadHostname(problem) =>
      match problem
      case Protocol => "Public hostname should not include protocol (http/https)"
      case Path => "Public hostname should not include path"
      case Empty => "Hostname cannot be empty"
      case TooLong => "Hostname exceeds maximum length of 253 characters"
      case BadCharacters => "Hostname contains invalid characters. Use only letters, numbers, hyphens, and dots"
      case Consecutive => "Hostname cannot contain consecutive dots or hyphens"
      case BadEdge => "Hostname cannot start or end with dot or hyphen"
      case EmptySubdomain => "Subdomain cannot be empty for .inference-in-a-box domains"
      case LongSubdomain => "Subdomain exceeds maximum length of 63 characters"
      case NotQualified => "Custom hostname must be a fully qualified domain name (contain at least one dot)"
  }

  /**
   * The message of a failed model check quotes validateModelExists's error
   * text in full after a fixed prefix, so different causes give different
   * messages.
   */
  lemma MessageQuotesCause(cause: string, other: string)
    ensures HasPrefix(Message(ModelInvalid(cause)), ModelInvalidPrefix)
    ensures Message(ModelInvalid(cause))[|ModelInvalidPrefix|..] == cause
    ensures cause != other ==> Message(ModelInvalid(cause)) != Message(ModelInvalid(other))
  {
    var m1, m2 := Message(ModelInvalid(cause)), Message(ModelInvalid(other));
    assert m1[|ModelInvalidPrefix|..] == cause && m2[|ModelInvalidPrefix|..] == other;
  }

  /** One rule violation.  The source's untyped Value field is not modelled. */
  datatype ValidationError = ValidationError(field: Field, reason: Reason)

  /** (*ValidationError).Error */
  function ValidationErrorText(e: ValidationError): (r: string)
    ensures HasPrefix(r, "validation error for field '" + Name(e.field) + "': ")
    ensures HasSuffix(r, Message(e.reason))
    ensures |r| == |"validation error for field '"| + |Name(e.field)| + 3 + |Message(e.reason)|
  {
    "validation error for field '" + Name(e.field) + "': " + Message(e.reason)
  }
}
