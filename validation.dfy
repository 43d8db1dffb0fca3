/**
 * PublishingValidator.ValidatePublishRequest and ValidateUpdateRequest: each
 * field is checked on its own and every violation is appended to the result,
 * in a fixed order, without stopping at the first one.  Each validator is
 * modelled as its list of checks, in source order, each giving an error or
 * nothing; the result collects the errors in that order.
 */
module Validation {
  import opened Wrappers
  import opened Strings
  import opened PublishingErrors
  import opened Hostnames

  /** The parts of PublishConfig and PublishedModel that the checks read. */
  datatype RateLimits = RateLimits(requestsPerMinute: int, requestsPerHour: int)
  datatype Authentication = Authentication(requireApiKey: bool)
  datatype PublishConfig = PublishConfig(
    tenantId: string,
    rateLimiting: RateLimits,
    modelType: string,
    externalPath: string,
    publicHostname: string,
    authentication: Authentication)
  datatype PublishedModel = PublishedModel(modelType: string)

  const ModelTypes: set<string> := {"", "traditional", "openai"}

  /** Go's `errors = append(errors, e)` when a check has failed. */
  function AppendIf(errs: seq<ValidationError>, check: Option<ValidationError>): seq<ValidationError>
  {
    match check
    case None => errs
    case Some(e) => errs + [e]
  }

  /** A check's outcome: the error e when the rule fails, nothing otherwise. */
  function Check(fails: bool, e: ValidationError): Option<ValidationError>
  {
    if fails then Some(e) else None
  }

  /** validateModelExists's error, if it returned one. */
  function ModelCheck(modelCheck: Option<string>): Option<ValidationError>
  {
    match modelCheck
    case None => None
    case Some(cause) => Some(ValidationError(Model, ModelInvalid(cause)))
  }

  function TenantCheck(config: PublishConfig): Option<ValidationError>
  {
    Check(config.tenantId == "", ValidationError(TenantId, TenantMissing))
  }

  function MinuteCheck(limits: RateLimits): Option<ValidationError>
  {
    Check(limits.requestsPerMinute <= 0,
          ValidationError(RequestsPerMinute, MinuteNotPositive))
  }

  function HourCheck(limits: RateLimits): Option<ValidationError>
  {
    Check(limits.requestsPerHour <= 0,
          ValidationError(RequestsPerHour, HourNotPositive))
  }

  function LimitOrderCheck(limits: RateLimits): Option<ValidationError>
  {
    Check(limits.requestsPerMinute > limits.requestsPerHour,
          ValidationError(RateLimiting, MinuteAboveHour))
  }

  /** On publish: the model type must be one the gateway knows. */
  function ModelTypeCheck(config: PublishConfig): Option<ValidationError>
  {
    Check(config.modelType !in ModelTypes,
          ValidationError(ModelType, UnknownModelType))
  }

  /** On update: a given model type must be the one already published. */
  function ImmutableTypeCheck(config: PublishConfig, current: PublishedModel): Option<ValidationError>
  {
    Check(config.modelType != "" && config.modelType != current.modelType,
          ValidationError(ModelType, ModelTypeChanged))
  }

  function PathCheck(config: PublishConfig): Option<ValidationError>
  {
    Check(config.externalPath != "" && !HasPrefix(config.externalPath, "/"),
          ValidationError(ExternalPath, PathNotAbsolute))
  }

  /** An empty hostname is not checked; otherwise validateHostname's verdict. */
  function HostnameCheck(config: PublishConfig): (r: Option<ValidationError>)
    ensures r.Some? ==> r.value.field == PublicHostname
    ensures r.Some? <==> config.publicHostname != "" && HostnameFault(config.publicHostname).Some?
  {
    if config.publicHostname == "" then None else ValidateHostname(config.publicHostname)
  }

  function AuthCheck(config: PublishConfig): Option<ValidationError>
  {
    Check(!config.authentication.requireApiKey,
          ValidationError(RequireApiKey, ApiKeyNotRequired))
  }

  /**
   * ValidatePublishRequest.  modelCheck is what validateModelExists returned
   * for the request's namespace and model: None for nil, or the text of the
   * error.  Every error it returns names a field that breaks its rule, with
   * the message the source attaches to that rule.
   */
  function ValidatePublishRequest(config: PublishConfig, modelCheck: Option<string>): (r: seq<ValidationError>)
    ensures |r| <= 9
    ensures forall i | 0 <= i < |r| :: PublishSound(r[i], config, modelCheck)
  {
    var limits := config.rateLimiting;
    var e1 := AppendIf([], ModelCheck(modelCheck));
    var e2 := AppendIf(e1, TenantCheck(config));
    var e3 := AppendIf(e2, MinuteCheck(limits));
    var e4 := AppendIf(e3, HourCheck(limits));
    var e5 := AppendIf(e4, LimitOrderCheck(limits));
    var e6 := AppendIf(e5, ModelTypeCheck(config));
    var e7 := AppendIf(e6, PathCheck(config));
    var e8 := AppendIf(e7, HostnameCheck(config));
    var e9 := AppendIf(e8, AuthCheck(config));
    var sound := e => PublishSound(e, config, modelCheck);
    PublishChecksSound(config, modelCheck);
    HostnameCheckSound(config, modelCheck, PublishedModel(""));
    AppendFourSound([], ModelCheck(modelCheck), TenantCheck(config), MinuteCheck(limits), HourCheck(limits), sound);
    AppendFourSound(e4, LimitOrderCheck(limits), ModelTypeCheck(config), PathCheck(config), HostnameCheck(config), sound);
    AppendIfSound(e8, AuthCheck(config), sound);
    e9
  }

  /**
   * ValidateUpdateRequest, against the model as currently published.  Every
   * error it returns names a field that breaks its update rule, with the
   * message the source attaches to that rule.
   */
  function ValidateUpdateRequest(config: PublishConfig, current: PublishedModel): (r: seq<ValidationError>)
    ensures |r| <= 8
    ensures forall i | 0 <= i < |r| :: UpdateSound(r[i], config, current)
  {
    var limits := config.rateLimiting;
    var e1 := AppendIf([], TenantCheck(config));
    var e2 := AppendIf(e1, ImmutableTypeCheck(config, current));
    var e3 := AppendIf(e2, MinuteCheck(limits));
    var e4 := AppendIf(e3, HourCheck(limits));
    var e5 := AppendIf(e4, LimitOrderCheck(limits));
    var e6 := AppendIf(e5, PathCheck(config));
    var e7 := AppendIf(e6, HostnameCheck(config));
    var e8 := AppendIf(e7, AuthCheck(config));
    var sound := e => UpdateSound(e, config, current);
    UpdateChecksSound(config, current);
    HostnameCheckSound(config, None, current);
    AppendFourSound([], TenantCheck(config), ImmutableTypeCheck(config, current), MinuteCheck(limits), HourCheck(limits), sound);
    AppendFourSound(e4, LimitOrderCheck(limits), PathCheck(config), HostnameCheck(config), AuthCheck(config), sound);
    e8
  }

  /**
   * Why a publish request breaks the rule of field f: the reason, and so the
   * message, the source attaches to that field's check.  A failed model
   * check carries validateModelExists's text; a hostname carries the first
   * test of validateHostname that fails.
   */
  function PublishReason(f: Field, config: PublishConfig, modelCheck: Option<string>): Reason
    requires Violates(f, config, modelCheck)
  {
    match f
    case Model => ModelInvalid(modelCheck.value)
    case TenantId => TenantMissing
    case RequestsPerMinute => MinuteNotPositive
    case RequestsPerHour => HourNotPositive
    case RateLimiting => MinuteAboveHour
    case ModelType => UnknownModelType
    case ExternalPath => PathNotAbsolute
    case PublicHostname => BadHostname(HostnameFault(config.publicHostname).value)
    case RequireApiKey => ApiKeyNotRequired
  }

  /** Why an update breaks the rule of field f: a changed model type has its own message. */
  function UpdateReason(f: Field, config: PublishConfig, current: PublishedModel): Reason
    requires UpdateViolates(f, config, current)
  {
    if f == ModelType then ModelTypeChanged else PublishReason(f, config, None)
  }

  /** An error a publish may report: its field breaks its rule, and it gives that rule's reason. */
  predicate PublishSound(e: ValidationError, config: PublishConfig, modelCheck: Option<string>)
  {
    Violates(e.field, config, modelCheck) && e.reason == PublishReason(e.field, config, modelCheck)
  }

  /** An error an update may report: its field breaks its update rule, and it gives that rule's reason. */
  predicate UpdateSound(e: ValidationError, config: PublishConfig, current: PublishedModel)
  {
    UpdateViolates(e.field, config, current) && e.reason == UpdateReason(e.field, config, current)
  }

  /** Each check of ValidatePublishRequest reports only a broken rule, with that rule's reason. */
  lemma PublishChecksSound(config: PublishConfig, modelCheck: Option<string>)
    ensures var c := ModelCheck(modelCheck); c.Some? ==> PublishSound(c.value, config, modelCheck)
    ensures var c := TenantCheck(config); c.Some? ==> PublishSound(c.value, config, modelCheck)
    ensures var c := MinuteCheck(config.rateLimiting); c.Some? ==> PublishSound(c.value, config, modelCheck)
    ensures var c := HourCheck(config.rateLimiting); c.Some? ==> PublishSound(c.value, config, modelCheck)
    ensures var c := LimitOrderCheck(config.rateLimiting); c.Some? ==> PublishSound(c.value, config, modelCheck)
    ensures var c := ModelTypeCheck(config); c.Some? ==> PublishSound(c.value, config, modelCheck)
    ensures var c := PathCheck(config); c.Some? ==> PublishSound(c.value, config, modelCheck)
    ensures var c := AuthCheck(config); c.Some? ==> PublishSound(c.value, config, modelCheck)
  {
  }

  /** The hostname check reports only a hostname that validateHostname rejects, with the test that failed. */
  lemma HostnameCheckSound(config: PublishConfig, modelCheck: Option<string>, current: PublishedModel)
    ensures var c := HostnameCheck(config); c.Some? ==> PublishSound(c.value, config, modelCheck)
    ensures var c := HostnameCheck(config); c.Some? ==> UpdateSound(c.value, config, current)
  {
  }

  /** Each check of ValidateUpdateRequest reports only a broken update rule, with that rule's reason. */
  lemma UpdateChecksSound(config: PublishConfig, current: PublishedModel)
    ensures var c := TenantCheck(config); c.Some? ==> UpdateSound(c.value, config, current)
    ensures var c := ImmutableTypeCheck(config, current); c.Some? ==> UpdateSound(c.value, config, current)
    ensures var c := MinuteCheck(config.rateLimiting); c.Some? ==> UpdateSound(c.value, config, current)
    ensures var c := HourCheck(config.rateLimiting); c.Some? ==> UpdateSound(c.value, config, current)
    ensures var c := LimitOrderCheck(config.rateLimiting); c.Some? ==> UpdateSound(c.value, config, current)
    ensures var c := PathCheck(config); c.Some? ==> UpdateSound(c.value, config, current)
    ensures var c := AuthCheck(config); c.Some? ==> UpdateSound(c.value, config, current)
  {
  }

  /** Every error in errs satisfies sound. */
  predicate AllSound(errs: seq<ValidationError>, sound: ValidationError -> bool)
  {
    forall i | 0 <= i < |errs| :: sound(errs[i])
  }

  /** Appending a sound check's error to sound errors keeps them sound. */
  lemma AppendIfSound(errs: seq<ValidationError>, check: Option<ValidationError>, sound: ValidationError -> bool)
    ensures AllSound(errs, sound) && (check.Some? ==> sound(check.value)) ==>
              AllSound(AppendIf(errs, check), sound)
    ensures |AppendIf(errs, check)| <= |errs| + 1
  {
  }

  /** Four checks in a row, each reporting only errors that satisfy sound. */
  lemma AppendFourSound(errs: seq<ValidationError>, c1: Option<ValidationError>, c2: Option<ValidationError>,
                        c3: Option<ValidationError>, c4: Option<ValidationError>, sound: ValidationError -> bool)
    ensures var r := AppendIf(AppendIf(AppendIf(AppendIf(errs, c1), c2), c3), c4);
            && |r| <= |errs| + 4
            && (&& AllSound(errs, sound)
                && (c1.Some? ==> sound(c1.value)) && (c2.Some? ==> sound(c2.value))
                && (c3.Some? ==> sound(c3.value)) && (c4.Some? ==> sound(c4.value))
                ==> AllSound(r, sound))
  {
    AppendIfSound(errs, c1, sound);
    AppendIfSound(AppendIf(errs, c1), c2, sound);
    AppendIfSound(AppendIf(AppendIf(errs, c1), c2), c3, sound);
    AppendIfSound(AppendIf(AppendIf(AppendIf(errs, c1), c2), c3), c4, sound);
  }

  /** Some error in errs is about field f. */
  predicate Flagged(errs: seq<ValidationError>, f: Field)
  {
    exists i | 0 <= i < |errs| :: errs[i].field == f
  }

  /** The publish rule for each field, taken on its own. */
  predicate Violates(f: Field, config: PublishConfig, modelCheck: Option<string>)
  {
    match f
    case Model => modelCheck.Some?
    case TenantId => config.tenantId == ""
    case RequestsPerMinute => config.rateLimiting.requestsPerMinute <= 0
    case RequestsPerHour => config.rateLimiting.requestsPerHour <= 0
    case RateLimiting => config.rateLimiting.requestsPerMinute > config.rateLimiting.requestsPerHour
    case ModelType => config.modelType !in ModelTypes
    case ExternalPath => config.externalPath != "" && !HasPrefix(config.externalPath, "/")
    case PublicHostname => config.publicHostname != "" && HostnameFault(config.publicHostname).Some?
    case RequireApiKey => !config.authentication.requireApiKey
  }


  /**
   * The rule an update breaks for field f: the model itself is not checked,
   * a non-empty model type must equal the published one, and every other
   * field has its publish rule.
   */
  predicate UpdateViolates(f: Field, config: PublishConfig, current: PublishedModel)
  {
    match f
    case Model => false
    case ModelType => config.modelType != "" && config.modelType != current.modelType
    case _ => Violates(f, config, None)
  }

  /** The fields of errs all rank below n. */
  predicate RanksBelow(errs: seq<ValidationError>, rank: Field -> nat, n: nat)
  {
    forall i | 0 <= i < |errs| :: rank(errs[i].field) < n
  }

  /** The fields of errs occur in strictly increasing rank, so none twice. */
  predicate OrderedBy(errs: seq<ValidationError>, rank: Field -> nat)
  {
    forall i, j | 0 <= i < j < |errs| :: rank(errs[i].field) < rank(errs[j].field)
  }

  lemma AppendIfFlagged(errs: seq<ValidationError>, check: Option<ValidationError>, f: Field)
    ensures Flagged(AppendIf(errs, check), f) <==> Flagged(errs, f) || (check.Some? && check.value.field == f)
  {
    var r := AppendIf(errs, check);
    if Flagged(errs, f) {
      var i :| 0 <= i < |errs| && errs[i].field == f;
      assert r[i] == errs[i];
    }
    if check.Some? && check.value.field == f {
      assert r[|errs|] == check.value;
    }
  }

  /**
   * errs lists fields in strictly increasing rank, all below n; stated
   * from the back, so that appending one error unfolds it once.
   */
  predicate Ascending(errs: seq<ValidationError>, rank: Field -> nat, n: nat)
  {
    |errs| == 0 ||
    (var last := rank(errs[|errs| - 1].field);
     last < n && Ascending(errs[..|errs| - 1], rank, last))
  }

  lemma {:induction false} AscendingOrdered(errs: seq<ValidationError>, rank: Field -> nat, n: nat)
    requires Ascending(errs, rank, n)
    ensures OrderedBy(errs, rank) && RanksBelow(errs, rank, n)
  {
    if |errs| > 0 {
      var front := errs[..|errs| - 1];
      var last := rank(errs[|errs| - 1].field);
      AscendingOrdered(front, rank, last);
      assert forall i | 0 <= i < |front| :: errs[i] == front[i];
    }
  }

  /** Appending the error of a check that ranks above everything so far keeps the order. */
  lemma AppendIfAscending(errs: seq<ValidationError>, check: Option<ValidationError>, rank: Field -> nat, f: Field)
    requires Ascending(errs, rank, rank(f))
    requires check.Some? ==> check.value.field == f
    ensures Ascending(AppendIf(errs, check), rank, rank(f) + 1)
  {
    if check.Some? {
      assert AppendIf(errs, check)[..|errs|] == errs;
    }
  }

  lemma HostnameAscending(errs: seq<ValidationError>, config: PublishConfig, rank: Field -> nat)
    requires Ascending(errs, rank, rank(PublicHostname))
    ensures Ascending(AppendIf(errs, HostnameCheck(config)), rank, rank(PublicHostname) + 1)
  {
    AppendIfAscending(errs, HostnameCheck(config), rank, PublicHostname);
  }

  /**
   * ValidatePublishRequest reports field f exactly when f's own rule is
   * violated, whatever the other fields hold: no check stops the others.
   */
  lemma PublishFlags(config: PublishConfig, modelCheck: Option<string>, f: Field)
    ensures Flagged(ValidatePublishRequest(config, modelCheck), f) <==> Violates(f, config, modelCheck)
  {
    var limits := config.rateLimiting;
    var e1 := AppendIf([], ModelCheck(modelCheck));
    var e2 := AppendIf(e1, TenantCheck(config));
    var e3 := AppendIf(e2, MinuteCheck(limits));
    var e4 := AppendIf(e3, HourCheck(limits));
    var e5 := AppendIf(e4, LimitOrderCheck(limits));
    var e6 := AppendIf(e5, ModelTypeCheck(config));
    var e7 := AppendIf(e6, PathCheck(config));
    var e8 := AppendIf(e7, HostnameCheck(config));
    var e9 := AppendIf(e8, AuthCheck(config));
    assert ValidatePublishRequest(config, modelCheck) == e9;
    AppendIfFlagged([], ModelCheck(modelCheck), f);
    AppendIfFlagged(e1, TenantCheck(config), f);
    AppendIfFlagged(e2, MinuteCheck(limits), f);
    AppendIfFlagged(e3, HourCheck(limits), f);
    AppendIfFlagged(e4, LimitOrderCheck(limits), f);
    AppendIfFlagged(e5, ModelTypeCheck(config), f);
    AppendIfFlagged(e6, PathCheck(config), f);
    AppendIfFlagged(e7, HostnameCheck(config), f);
    AppendIfFlagged(e8, AuthCheck(config), f);
  }

  /** Position of each field in ValidatePublishRequest's output. */
  function PublishRank(f: Field): nat
  {
    match f
    case Model => 0
    case TenantId => 1
    case RequestsPerMinute => 2
    case RequestsPerHour => 3
    case RateLimiting => 4
    case ModelType => 5
    case ExternalPath => 6
    case PublicHostname => 7
    case RequireApiKey => 8
  }

  /** Position of each field in ValidateUpdateRequest's output; modelType moves up to second. */
  function UpdateRank(f: Field): nat
  {
    match f
    case Model => 0
    case TenantId => 1
    case ModelType => 2
    case RequestsPerMinute => 3
    case RequestsPerHour => 4
    case RateLimiting => 5
    case ExternalPath => 6
    case PublicHostname => 7
    case RequireApiKey => 8
  }

  /**
   * The errors come in the order model, tenantId, the three rate-limit
   * fields, modelType, externalPath, publicHostname, authentication, and
   * no field is reported twice (so publicHostname at most once).
   */
  lemma PublishOrdered(config: PublishConfig, modelCheck: Option<string>)
    ensures OrderedBy(ValidatePublishRequest(config, modelCheck), PublishRank)
  {
    var limits := config.rateLimiting;
    var e1 := AppendIf([], ModelCheck(modelCheck));
    var e2 := AppendIf(e1, TenantCheck(config));
    var e3 := AppendIf(e2, MinuteCheck(limits));
    var e4 := AppendIf(e3, HourCheck(limits));
    var e5 := AppendIf(e4, LimitOrderCheck(limits));
    PublishHeadAscending(config, modelCheck);
    PublishTailAscending(e5, config);
    var r := ValidatePublishRequest(config, modelCheck);
    AscendingOrdered(r, PublishRank, PublishRank(RequireApiKey) + 1);
  }

  lemma PublishHeadAscending(config: PublishConfig, modelCheck: Option<string>)
    ensures
      var limits := config.rateLimiting;
      Ascending(AppendIf(AppendIf(AppendIf(AppendIf(AppendIf([],
        ModelCheck(modelCheck)), TenantCheck(config)), MinuteCheck(limits)), HourCheck(limits)),
        LimitOrderCheck(limits)), PublishRank, PublishRank(RateLimiting) + 1)
  {
    var e1 := AppendIf([], ModelCheck(modelCheck));
    AppendIfAscending([], ModelCheck(modelCheck), PublishRank, Model);
    AppendIfAscending(e1, TenantCheck(config), PublishRank, TenantId);
    LimitsAscending(AppendIf(e1, TenantCheck(config)), config.rateLimiting, PublishRank);
  }

  /** The three rate-limit checks, which both validators run one after another. */
  lemma LimitsAscending(errs: seq<ValidationError>, limits: RateLimits, rank: Field -> nat)
    requires rank(RequestsPerMinute) < rank(RequestsPerHour) < rank(RateLimiting)
    requires Ascending(errs, rank, rank(RequestsPerMinute))
    ensures Ascending(AppendIf(AppendIf(AppendIf(errs,
      MinuteCheck(limits)), HourCheck(limits)), LimitOrderCheck(limits)), rank, rank(RateLimiting) + 1)
  {
    var e3 := AppendIf(errs, MinuteCheck(limits));
    var e4 := AppendIf(e3, HourCheck(limits));
    AppendIfAscending(errs, MinuteCheck(limits), rank, RequestsPerMinute);
    AppendIfAscending(e3, HourCheck(limits), rank, RequestsPerHour);
    AppendIfAscending(e4, LimitOrderCheck(limits), rank, RateLimiting);
  }

  lemma PublishTailAscending(errs: seq<ValidationError>, config: PublishConfig)
    requires Ascending(errs, PublishRank, PublishRank(RateLimiting) + 1)
    ensures Ascending(AppendIf(AppendIf(AppendIf(AppendIf(errs,
      ModelTypeCheck(config)), PathCheck(config)), HostnameCheck(config)), AuthCheck(config)),
      PublishRank, PublishRank(RequireApiKey) + 1)
  {
    var e6 := AppendIf(errs, ModelTypeCheck(config));
    var e7 := AppendIf(e6, PathCheck(config));
    AppendIfAscending(errs, ModelTypeCheck(config), PublishRank, ModelType);
    AppendIfAscending(e6, PathCheck(config), PublishRank, ExternalPath);
    PublishLastAscending(e7, config);
  }

  lemma PublishLastAscending(errs: seq<ValidationError>, config: PublishConfig)
    requires Ascending(errs, PublishRank, PublishRank(ExternalPath) + 1)
    ensures Ascending(AppendIf(AppendIf(errs, HostnameCheck(config)), AuthCheck(config)),
      PublishRank, PublishRank(RequireApiKey) + 1)
  {
    var e8 := AppendIf(errs, HostnameCheck(config));
    HostnameAscending(errs, config, PublishRank);
    AppendIfAscending(e8, AuthCheck(config), PublishRank, RequireApiKey);
  }

  /**
   * ValidateUpdateRequest never reports the model itself, reports modelType
   * exactly when a non-empty type differs from the published one, and
   * reports every other field exactly as ValidatePublishRequest does.
   */
  lemma UpdateFlags(config: PublishConfig, current: PublishedModel, f: Field)
    ensures f == Model ==> !Flagged(ValidateUpdateRequest(config, current), f)
    ensures f == ModelType ==>
              (Flagged(ValidateUpdateRequest(config, current), f) <==>
               config.modelType != "" && config.modelType != current.modelType)
    ensures f != Model && f != ModelType ==>
              (Flagged(ValidateUpdateRequest(config, current), f) <==> Violates(f, config, None))
  {
    var limits := config.rateLimiting;
    var e1 := AppendIf([], TenantCheck(config));
    var e2 := AppendIf(e1, ImmutableTypeCheck(config, current));
    var e3 := AppendIf(e2, MinuteCheck(limits));
    var e4 := AppendIf(e3, HourCheck(limits));
    var e5 := AppendIf(e4, LimitOrderCheck(limits));
    var e6 := AppendIf(e5, PathCheck(config));
    var e7 := AppendIf(e6, HostnameCheck(config));
    var e8 := AppendIf(e7, AuthCheck(config));
    assert ValidateUpdateRequest(config, current) == e8;
    AppendIfFlagged([], TenantCheck(config), f);
    AppendIfFlagged(e1, ImmutableTypeCheck(config, current), f);
    AppendIfFlagged(e2, MinuteCheck(limits), f);
    AppendIfFlagged(e3, HourCheck(limits), f);
    AppendIfFlagged(e4, LimitOrderCheck(limits), f);
    AppendIfFlagged(e5, PathCheck(config), f);
    AppendIfFlagged(e6, HostnameCheck(config), f);
    AppendIfFlagged(e7, AuthCheck(config), f);
  }

  /** The errors come in the order tenantId, modelType, the rate-limit fields, externalPath, publicHostname, authentication. */
  lemma UpdateOrdered(config: PublishConfig, current: PublishedModel)
    ensures OrderedBy(ValidateUpdateRequest(config, current), UpdateRank)
  {
    var limits := config.rateLimiting;
    var e1 := AppendIf([], TenantCheck(config));
    var e2 := AppendIf(e1, ImmutableTypeCheck(config, current));
    var e3 := AppendIf(e2, MinuteCheck(limits));
    var e4 := AppendIf(e3, HourCheck(limits));
    var e5 := AppendIf(e4, LimitOrderCheck(limits));
    UpdateHeadAscending(config, current);
    UpdateTailAscending(e5, config);
    var r := ValidateUpdateRequest(config, current);
    AscendingOrdered(r, UpdateRank, UpdateRank(RequireApiKey) + 1);
  }

  lemma UpdateHeadAscending(config: PublishConfig, current: PublishedModel)
    ensures
      var limits := config.rateLimiting;
      Ascending(AppendIf(AppendIf(AppendIf(AppendIf(AppendIf([],
        TenantCheck(config)), ImmutableTypeCheck(config, current)), MinuteCheck(limits)),
        HourCheck(limits)), LimitOrderCheck(limits)), UpdateRank, UpdateRank(RateLimiting) + 1)
  {
    var e1 := AppendIf([], TenantCheck(config));
    AppendIfAscending([], TenantCheck(config), UpdateRank, TenantId);
    AppendIfAscending(e1, ImmutableTypeCheck(config, current), UpdateRank, ModelType);
    LimitsAscending(AppendIf(e1, ImmutableTypeCheck(config, current)), config.rateLimiting, UpdateRank);
  }

  lemma UpdateTailAscending(errs: seq<ValidationError>, config: PublishConfig)
    requires Ascending(errs, UpdateRank, UpdateRank(RateLimiting) + 1)
    ensures Ascending(AppendIf(AppendIf(AppendIf(errs,
      PathCheck(config)), HostnameCheck(config)), AuthCheck(config)),
      UpdateRank, UpdateRank(RequireApiKey) + 1)
  {
    var e6 := AppendIf(errs, PathCheck(config));
    AppendIfAscending(errs, PathCheck(config), UpdateRank, ExternalPath);
    UpdateLastAscending(e6, config);
  }

  lemma UpdateLastAscending(errs: seq<ValidationError>, config: PublishConfig)
    requires Ascending(errs, UpdateRank, UpdateRank(ExternalPath) + 1)
    ensures Ascending(AppendIf(AppendIf(errs, HostnameCheck(config)), AuthCheck(config)),
      UpdateRank, UpdateRank(RequireApiKey) + 1)
  {
    var e7 := AppendIf(errs, HostnameCheck(config));
    HostnameAscending(errs, config, UpdateRank);
    AppendIfAscending(e7, AuthCheck(config), UpdateRank, RequireApiKey);
  }

  /** No error in errs is about a field under rateLimiting. */
  predicate RateLimitsClean(errs: seq<ValidationError>)
  {
    forall i | 0 <= i < |errs| :: !HasPrefix(Name(errs[i].field), "rateLimiting")
  }

  lemma RateLimitsCleanUnflagged(errs: seq<ValidationError>)
    ensures RateLimitsClean(errs) <==>
              !Flagged(errs, RequestsPerMinute) && !Flagged(errs, RequestsPerHour) &&
              !Flagged(errs, RateLimiting)
  {
    forall i | 0 <= i < |errs|
      ensures HasPrefix(Name(errs[i].field), "rateLimiting") <==>
                errs[i].field in {RequestsPerMinute, RequestsPerHour, RateLimiting}
    {
      RateLimitNames(errs[i].field);
    }
  }

  /** The rate limits are accepted when both are positive and the minute limit does not exceed the hour limit. */
  predicate LimitsValid(limits: RateLimits)
  {
    limits.requestsPerMinute > 0 && limits.requestsPerHour > 0 &&
    limits.requestsPerMinute <= limits.requestsPerHour
  }

  /** Errors that flag each rate-limit field exactly when its rule fails are clean exactly for valid limits. */
  lemma CleanIffLimitsValid(errs: seq<ValidationError>, limits: RateLimits)
    requires Flagged(errs, RequestsPerMinute) <==> limits.requestsPerMinute <= 0
    requires Flagged(errs, RequestsPerHour) <==> limits.requestsPerHour <= 0
    requires Flagged(errs, RateLimiting) <==> limits.requestsPerMinute > limits.requestsPerHour
    ensures RateLimitsClean(errs) <==> LimitsValid(limits)
  {
    RateLimitsCleanUnflagged(errs);
  }

  lemma PublishRateLimits(config: PublishConfig, modelCheck: Option<string>)
    ensures RateLimitsClean(ValidatePublishRequest(config, modelCheck)) <==> LimitsValid(config.rateLimiting)
  {
    var r := ValidatePublishRequest(config, modelCheck);
    PublishFlags(config, modelCheck, RequestsPerMinute);
    PublishFlags(config, modelCheck, RequestsPerHour);
    PublishFlags(config, modelCheck, RateLimiting);
    CleanIffLimitsValid(r, config.rateLimiting);
  }

  lemma UpdateRateLimits(config: PublishConfig, current: PublishedModel)
    ensures RateLimitsClean(ValidateUpdateRequest(config, current)) <==> LimitsValid(config.rateLimiting)
  {
    var r := ValidateUpdateRequest(config, current);
    UpdateFlags(config, current, RequestsPerMinute);
    UpdateFlags(config, current, RequestsPerHour);
    UpdateFlags(config, current, RateLimiting);
    CleanIffLimitsValid(r, config.rateLimiting);
  }

  /**
   * Every rule a publish request breaks is reported with its own reason:
   * the message the source attaches to that check.
   */
  lemma PublishReports(config: PublishConfig, modelCheck: Option<string>, f: Field)
    requires Violates(f, config, modelCheck)
    ensures ValidationError(f, PublishReason(f, config, modelCheck)) in ValidatePublishRequest(config, modelCheck)
  {
    var r := ValidatePublishRequest(config, modelCheck);
    PublishFlags(config, modelCheck, f);
    var i :| 0 <= i < |r| && r[i].field == f;
    assert r[i] == ValidationError(f, PublishReason(f, config, modelCheck));
  }

  /** Every rule an update breaks is reported with its own reason. */
  lemma UpdateReports(config: PublishConfig, current: PublishedModel, f: Field)
    requires UpdateViolates(f, config, current)
    ensures ValidationError(f, UpdateReason(f, config, current)) in ValidateUpdateRequest(config, current)
  {
    var r := ValidateUpdateRequest(config, current);
    UpdateFlags(config, current, f);
    var i :| 0 <= i < |r| && r[i].field == f;
    assert r[i] == ValidationError(f, UpdateReason(f, config, current));
  }

  /** A request is accepted (no errors) exactly when no field breaks its rule. */
  lemma PublishAccepts(config: PublishConfig, modelCheck: Option<string>)
    ensures ValidatePublishRequest(config, modelCheck) == [] <==>
              forall f :: !Violates(f, config, modelCheck)
  {
    var r := ValidatePublishRequest(config, modelCheck);
    if r != [] {
      PublishFlags(config, modelCheck, r[0].field);
    } else {
      forall f ensures !Violates(f, config, modelCheck) {
        PublishFlags(config, modelCheck, f);
      }
    }
  }

  /**
   * An empty tenant, a zero minute limit and an unknown model type are all
   * reported, in that order, and nothing else is.
   */
  lemma ThreeErrorsReported()
    ensures ValidatePublishRequest(
              PublishConfig("", RateLimits(0, 100), "bogus", "", "", Authentication(true)), None)
            == [ValidationError(TenantId, TenantMissing),
                ValidationError(RequestsPerMinute, MinuteNotPositive),
                ValidationError(ModelType, UnknownModelType)]
  {
  }

  /** Changing a published "traditional" model to "openai" is refused. */
  lemma UpdateTypeChangeRejected(config: PublishConfig, current: PublishedModel)
    requires config.modelType == "openai" && current.modelType == "traditional"
    ensures Flagged(ValidateUpdateRequest(config, current), ModelType)
    ensures ValidationError(ModelType, ModelTypeChanged) in ValidateUpdateRequest(config, current)
  {
    assert config.modelType[0] != current.modelType[0];
    UpdateReports(config, current, ModelType);
    UpdateFlags(config, current, ModelType);
  }

  /** Leaving the model type empty keeps it unchanged, whatever it is. */
  lemma UpdateEmptyTypeAccepted(config: PublishConfig, current: PublishedModel)
    requires config.modelType == ""
    ensures !Flagged(ValidateUpdateRequest(config, current), ModelType)
  {
    UpdateFlags(config, current, ModelType);
  }
}
