# Publishing errors, validation, rollback, recovery and error reporting

A Dafny model of `management/errors.go`, the failure-handling core of the
model publishing service:

- **PublishingError** (`publishing_errors.dfy`): the error a failed
  provisioning step raises, with its `Error()` text and its wrapped cause.
- **PublishingValidator** (`validation.dfy`, `hostnames.dfy`): checks a publish or
  update request field by field. Every violation is collected, in a fixed
  order. The hostname is checked by a sequence of tests that stops at the
  first failure, then by a category rule: the reserved default host, a
  subdomain of `.inference-in-a-box`, or a fully qualified custom name.
- **PublishingRollback** (`rollback.dfy`): records the completed steps and
  undoes them newest first.
- **RecoveryHandler** (`recovery.dfy`): cleans up all four resources of a
  model that was left published, and always returns nil.
- **ErrorReporter** (`reporting.dfy`): appends an entry to the day's
  `publishing-errors-<day>` ConfigMap of the namespace. If that log is
  missing, it creates it.
- `service.dfy` records the calls to the four cleanup operations of
  `PublishingService`. `strings.dfy` holds the string helpers the checks
  use, among them Go's byte length `len`. `wrappers.dfy` holds `Option`.

Modelling choices:

- A Go `error` is represented by its `Error()` text. A nil error is `None`.
- `validateModelExists` and `isModelPublished` query the cluster. Their
  answers are inputs: `modelCheck` and `isPublished`.
- The validators do not take `namespace` and `modelName`. The source uses
  them only for `validateModelExists`.
- Go's `len` on a string counts UTF-8 bytes. The model counts the same way
  (`Strings.ByteLen`).
- The hostname regular expression `^[a-zA-Z0-9]([a-zA-Z0-9\-\.]*[a-zA-Z0-9])?$`
  is modelled by the predicate `Hostnames.MatchesHostPattern`: non-empty,
  first and last characters alphanumeric, and only alphanumerics, `-` and `.`.
- The ConfigMap store is a map from (namespace, name) to the stored log. A
  missing key is a failed `GetConfigMap`. A ConfigMap whose `entries` value
  is not a list is `Malformed`, and the reporter leaves it unchanged.

Two of validateHostname's tests can never be the one that rejects a name
(`Hostnames.UnreachableChecks`):

- Once the character class holds, a name starts and ends with a letter or
  digit. So the start/end-with-dot-or-hyphen test (errors.go:344-351) never
  fires.
- For the same reason, the empty-subdomain test (errors.go:371-377) never
  fires.

As a result, `"-a.com"` and `".inference-in-a-box"` are rejected for invalid
characters, not for a leading hyphen or an empty subdomain. The model
follows the code here.

## Model

| member | source | states |
|---|---|---|
| PublishingErrors.ErrorText | management/errors.go:22-27 | The text starts with "Code: Message". With empty Details it is exactly that long. Otherwise it ends with " - Details" and has exactly the length of both parts. |
| PublishingErrors.NewPublishingError | management/errors.go:33-49 | Code, Message, Namespace, ModelName and Step are copied. Unwrap returns the given cause. Details is the cause's text, or "" for a nil cause. |
| PublishingErrors.NewErrorText | management/errors.go:22-49 | A new error's text is "code: message" for a nil cause or one with empty text. Otherwise it is "code: message - <cause text>". |
| PublishingErrors.Unwrap | management/errors.go:29-31 | Unwrap gives the wrapped cause, None for a nil cause. |
| PublishingErrors.UnwrapRebuilds | management/errors.go:29-49 | Rebuilding an error from its fields and its unwrapped cause gives the same error. |
| PublishingErrors.Message | management/errors.go:132-393 | Each kind of violation has the message text the source attaches to it. |
| PublishingErrors.MessageQuotesCause | management/errors.go:128-135 | A failed model check's message is "Model validation failed: " followed by the cause's text, so different causes give different messages. |
| PublishingErrors.RateLimitNames | management/errors.go:146-168 | A field name starts with "rateLimiting" exactly for requestsPerMinute, requestsPerHour and rateLimiting. |
| PublishingErrors.ValidationErrorText | management/errors.go:107-109 | The text is "validation error for field '<field>': " followed by the message. |
| Hostnames.ValidateHostnamePattern | management/errors.go:362-401 | The result is an error about publicHostname exactly when the category rule fails, and its message is that of the category test that failed. |
| Hostnames.CategoryRule | management/errors.go:362-401 | The category rule accepts exactly three kinds of name: the default host; a prefix of 1 to 63 bytes (dots allowed) followed by ".inference-in-a-box"; or a name not under that domain that contains a dot. |
| Hostnames.CategoryFaultFails | management/errors.go:368-395 | The rule reports empty subdomain, long subdomain or not qualified exactly when that test fails. These tests exclude one another. |
| Hostnames.ValidateHostname | management/errors.go:287-359 | At most one error, always about publicHostname. It is absent exactly when no test fails. Its message is that of the first failing test, which FirstFailingCheck characterises. |
| Hostnames.FirstFailingCheck | management/errors.go:287-359 | The reported problem is the first failing test in source order: every earlier test passes. |
| Hostnames.AcceptedIffAllPass | management/errors.go:287-359 | A hostname is accepted exactly when it passes every test. |
| Hostnames.UnreachableChecks | management/errors.go:324-377 | The dot/hyphen-at-an-end test and the empty-subdomain test never reject a name. The character class rejects such names first. |
| Hostnames.AcceptedShape | management/errors.go:287-359 | Every accepted hostname is 1 to 253 bytes of letters, digits, hyphens and dots. It starts and ends with a letter or digit, has no '/', ".." or "--", and contains a dot. |
| Hostnames.CategoryDecides | management/errors.go:324-356 | Once a name of at most 253 characters matches the class and has no doubled dot or hyphen, only the category rule decides. |
| Hostnames.DefaultHostAccepted | management/errors.go:363-366 | "api.router.inference-in-a-box" is accepted. |
| Hostnames.CustomHostAccepted | management/errors.go:388-400 | "valid.example.com" is accepted. |
| Hostnames.BaseSubdomainAccepted | management/errors.go:368-386 | "foo.inference-in-a-box" is accepted. |
| Hostnames.UnqualifiedRejected | management/errors.go:388-395 | "not-fqdn" is rejected as not fully qualified. |
| Hostnames.ProtocolRejected | management/errors.go:288-295 | "http://x.com" is rejected for including a protocol. |
| Hostnames.DoubledDotRejected | management/errors.go:334-341 | "a..b.com" is rejected for consecutive dots. |
| Hostnames.BadCharactersFirst | management/errors.go:297-332 | A name of at most 253 bytes with no '/' that fails the class is rejected for invalid characters. |
| Hostnames.LeadingHyphenRejected | management/errors.go:324-332 | "-a.com" and ".inference-in-a-box" are rejected for invalid characters; validateHostname returns the invalid-characters error for "-a.com". |
| Hostnames.BaseDomainLabel | management/errors.go:368-386 | An alphanumeric subdomain under ".inference-in-a-box" is accepted up to 63 characters. Beyond that it is rejected as too long. |
| Validation.ValidatePublishRequest | management/errors.go:124-207 | At most nine errors. Each one names a field that breaks its publish rule and carries that rule's message (PublishReason). |
| Validation.ValidateUpdateRequest | management/errors.go:210-284 | At most eight errors. Each one names a field that breaks its update rule and carries that rule's message (UpdateReason), "Model type cannot be changed after publishing" for a changed type. |
| Validation.HostnameCheck | management/errors.go:190-195 | An empty hostname is not checked. Otherwise the request gets a publicHostname error exactly when validateHostname reports one. |
| Validation.PublishFlags | management/errors.go:124-207 | ValidatePublishRequest reports field f exactly when f's own rule is violated, whatever the other fields hold. |
| Validation.PublishOrdered | management/errors.go:124-207 | Errors come in source order, and no field is reported twice. |
| Validation.PublishReports | management/errors.go:124-207 | Every rule a publish request breaks is reported, with its own message: validateModelExists's text for the model, the first failing test for the hostname. |
| Validation.UpdateReports | management/errors.go:210-284 | Every rule an update breaks is reported, with its own message. |
| Validation.PublishAccepts | management/errors.go:124-207 | The result is empty exactly when no field breaks its rule. |
| Validation.PublishRateLimits | management/errors.go:145-168 | No rateLimiting error is reported exactly when both limits are positive and the minute limit does not exceed the hour limit. |
| Validation.ThreeErrorsReported | management/errors.go:124-207 | An empty tenant, zero requests per minute and model type "bogus" give exactly the tenantId, requestsPerMinute and modelType errors, in that order. |
| Validation.UpdateFlags | management/errors.go:210-284 | ValidateUpdateRequest never reports the model. It reports modelType exactly when a non-empty type differs from the published one. Every other field is reported as on publish. |
| Validation.UpdateOrdered | management/errors.go:210-284 | Errors come in source order (tenantId, then modelType, ...), and no field is reported twice. |
| Validation.UpdateRateLimits | management/errors.go:231-254 | The same rate-limit equivalence holds for updates. |
| Validation.UpdateTypeChangeRejected | management/errors.go:222-229 | Changing "traditional" to "openai" is reported, as a modelType error with the "cannot be changed" message. |
| Validation.UpdateEmptyTypeAccepted | management/errors.go:222-229 | An empty model type is never reported on update. |
| Rollback.CleanupFor | management/errors.go:82-93 | Each of the four step names selects its own cleanup. Any other name selects none. |
| Rollback.PublishingRollback.constructor | management/errors.go:58-66 | A new rollback has no steps. |
| Rollback.PublishingRollback.AddStep | management/errors.go:69-72 | The step is appended to the recorded steps. |
| Rollback.PublishingRollback.Execute | management/errors.go:74-98 | The calls made are exactly Compensations of the steps, and the steps are kept. |
| Rollback.Compensations | management/errors.go:79-95 | Walking the steps from the newest, each known step gives one cleanup call and an unknown one none, so there are at most as many calls as steps. |
| Rollback.CompensationsForModel | management/errors.go:84-91 | Every rollback call is about the rollback's own namespace and model. |
| Rollback.CompensationsAppend | management/errors.go:74-98 | The step added last is undone first, before all earlier ones. |
| Rollback.CompensationsReversed | management/errors.go:74-98 | When all steps are known, the i-th call undoes the i-th newest step, for this rollback's namespace and model. |
| Rollback.UnknownStepsIgnored | management/errors.go:92-93 | Unknown step names cause no cleanup. |
| Rollback.RollbackOrderExample | management/errors.go:74-98 | Steps api_key, gateway_config, rate_limiting are undone as rate limit, gateway, then API key. |
| Recovery.RecoveryHandler.RecoverFromFailure | management/errors.go:416-435 | The result is always nil. A published model gets all four cleanups in source order. Otherwise nothing is called. |
| Recovery.FullCleanupCoversAll | management/errors.go:426-429 | Each kind of resource is cleaned up exactly once, and every call is about the failed model. |
| Recovery.FullCleanupIsRollback | management/errors.go:74-98 | A recovery makes the same calls as a rollback of all four steps recorded metadata first. |
| Reporting.LogName | management/errors.go:468 | The log name is "publishing-errors-" followed by the day. |
| Reporting.LogNameInjective | management/errors.go:468 | Different days give different log names. |
| Reporting.MakeEntry | management/errors.go:456-465 | The entry holds the timestamp, the user's name and tenant, the operation, model, namespace, the error's text, and level "error". |
| Reporting.ReportKeepsErrorLevel | management/errors.go:456-484 | If every logged entry has level "error", that stays true after a report. |
| Reporting.Reported | management/errors.go:468-484 | A missing or well-formed log gains the new entry at its end. A malformed log leaves the store unchanged. No other ConfigMap changes. |
| Reporting.ReportsKeepOrder | management/errors.go:468-484 | Two reports to the same log keep both entries in call order. A fresh log then holds exactly those two. |
| Reporting.ConfigMapStore.Get | management/errors.go:471 | Reading gives the stored object, or an error when there is none. |
| Reporting.ErrorReporter.ReportError | management/errors.go:450-485 | The store becomes Reported of the old store, at (namespace, log name of the day), with the entry built from the arguments. |

## Left out

- Logging (`log.Printf`) has no effect on the modelled state and is not modelled.
- The clock: `time.Now()` gives two inputs of ReportError, the RFC 3339
  timestamp and the day. They are independent parameters, so the model also
  covers calls that straddle midnight.
- The Kubernetes client and the four cleanup operations are outside the
  model. Cleanups are recorded as calls. ConfigMaps form an in-memory map
  whose Create and Update always succeed. The source ignores their errors
  anyway.
- `validateModelExists` and `isModelPublished` are not modelled; their answers are inputs.
- The `Value` field of ValidationError holds an `interface{}` that is never
  read, and it is not modelled. A validation message is a `Reason` value;
  `PublishingErrors.Message` gives its text.
- Concurrent ReportError calls on the same log are not modelled. The model
  is sequential: each call reads and writes the store in one step.
- Reporting.ConfigMapStore.Get: a read fails only when the ConfigMap is
  absent. GetConfigMap can also fail on a log that exists, for example with
  a transient API or permission error. Those failures are not modelled.
- Reporting.ErrorReporter.ReportError: the source takes the create branch on
  any GetConfigMap error. After a failed read of an existing log, it calls
  CreateConfigMap on a name already in use. The model covers only the read
  that fails because the log is absent.
- Reporting.ErrorReporter.ReportError: a nil `err` (errors.go:463) or a nil
  `user` (errors.go:453) makes the source panic. The model's `User` and
  error text cannot be nil, so these panics are not modelled.
- Validation.ValidateUpdateRequest: a nil `currentModel` makes the source
  panic when the requested model type is non-empty (errors.go:223). The
  model's `PublishedModel` cannot be nil, so this panic is not modelled.
- Regular-expression matching in general is not modelled, only the single
  pattern that validateHostname uses.
- The constructors NewPublishingValidator, NewRecoveryHandler and
  NewErrorReporter only store the service they are given. They are modelled as
  plain constructors, or not at all for the validator.
