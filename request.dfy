/**
 * The envelope class `Request`: the parser `fromAmazonRequest` and the four
 * null-safe accessors over the envelope it returns.
 */
module Requests {
  import opened Wrappers
  import opened JsonValues
  import opened Variants
  import opened ValueObjects
  import opened Registry

  /** The two exceptions `fromAmazonRequest` may throw. */
  datatype Error = MissingRequestData | MissingRequiredHeader

  /**
   * The collaborators `fromAmazonRequest` calls and whose code is not part of this model:
   * `json_decode($body, true)` (`null`, that is `JNull`, for a text that does not decode),
   * `Session::fromAmazonRequest`, `Context::fromAmazonRequest`, and the variant classes.
   */
  datatype Environment = Environment(
    jsonDecode: string -> Json,
    sessionFrom: Json -> Session,
    contextFrom: Json -> Context,
    classes: VariantClasses)

  /**
   * A successfully parsed envelope. `request` is not optional: an envelope without a
   * request variant is never returned.
   */
  datatype Request = Request(
    version: Option<Json>,
    session: Option<Session>,
    context: Option<Context>,
    request: AbstractRequest,
    amazonRequestBody: string,
    signatureCertChainUrl: string,
    signature: string)

  /** PHP's `!$s` on a string: only the empty string and `"0"` are falsy. */
  predicate Falsy(s: string)
  {
    s == "" || s == "0"
  }

  /**
   * PHP's conversion of a string to a boolean: only `""` and `"0"` are false, so strings
   * such as `"00"`, `"0.0"` or `" "` are truthy.
   */
  lemma FalsyStrings()
    ensures Falsy("") && Falsy("0")
    ensures !Falsy("00") && !Falsy("0.0") && !Falsy(" ") && !Falsy("false")
  {
  }

  /** `$amazonRequest['request']['type']`, when both `isset` checks pass. */
  function RequestTypeField(raw: Json): (t: Option<Json>)
    ensures t.Some? <==> Field(raw, "request").Some? && Field(raw.fields["request"], "type").Some?
    ensures t.Some? ==> t.value == raw.fields["request"].fields["type"]
  {
    match Field(raw, "request")
    case None => None
    case Some(req) => Field(req, "type")
  }

  /**
   * The class the registry selects for a decoded body, or `None` when the guard of the
   * dispatch fails. A `request.type` that is not a string is never a registry key here.
   */
  function ResolvedClass(env: Environment, raw: Json): (r: Option<RequestClass>)
    ensures r.Some? ==> RequestTypeField(raw) == Some(JString(env.classes.typeOf(r.value)))
    ensures r.None? <==> forall c :: RequestTypeField(raw) != Some(JString(env.classes.typeOf(c)))
  {
    match RequestTypeField(raw)
    case Some(JString(typ)) => Resolve(env.classes, typ)
    case _ => None
  }

  /**
   * `Request::fromAmazonRequest($amazonRequestBody, $signatureCertChainUrl, $signature)`:
   * `MissingRequestData` when the registry check fails, then `MissingRequiredHeader` when
   * the selected class validates signatures and a header is falsy, otherwise an envelope
   * that keeps the three inputs verbatim.
   */
  function FromAmazonRequest(env: Environment, amazonRequestBody: string, signatureCertChainUrl: string, signature: string)
    : (r: Result<Request, Error>)
    ensures r == Failure(MissingRequestData) <==> ResolvedClass(env, env.jsonDecode(amazonRequestBody)).None?
    ensures r == Failure(MissingRequiredHeader) <==>
      && ResolvedClass(env, env.jsonDecode(amazonRequestBody)).Some?
      && env.classes.validateSignature(ResolvedClass(env, env.jsonDecode(amazonRequestBody)).value)
      && (Falsy(signatureCertChainUrl) || Falsy(signature))
    ensures r.Success? ==>
      && r.value.amazonRequestBody == amazonRequestBody
      && r.value.signatureCertChainUrl == signatureCertChainUrl
      && r.value.signature == signature
      && Some(r.value.request.requestClass) == ResolvedClass(env, env.jsonDecode(amazonRequestBody))
  {
    var raw := env.jsonDecode(amazonRequestBody);
    var version := Field(raw, "version");
    var session := match Field(raw, "session") case Some(s) => Some(env.sessionFrom(s)) case None => None;
    var context := match Field(raw, "context") case Some(c) => Some(env.contextFrom(c)) case None => None;
    match ResolvedClass(env, raw)
    case None => Failure(MissingRequestData)
    case Some(cls) =>
      var request := AbstractRequest(cls, env.classes.fromAmazonRequest(cls, raw.fields["request"]));
      if env.classes.validateSignature(cls) && (Falsy(signatureCertChainUrl) || Falsy(signature)) then
        Failure(MissingRequiredHeader)
      else
        Success(Request(version, session, context, request, amazonRequestBody, signatureCertChainUrl, signature))
  }

  /** `getApplicationId()`: `$this->context->system->application->applicationId ?? null`. */
  function GetApplicationId(r: Request): (id: Option<string>)
    ensures id.Some? <==>
      && r.context.Some? && r.context.value.system.Some?
      && r.context.value.system.value.application.Some?
      && r.context.value.system.value.application.value.applicationId.Some?
    ensures id.Some? ==> id == r.context.value.system.value.application.value.applicationId
  {
    match r.context
    case None => None
    case Some(Context(system, _)) =>
      match system
      case None => None
      case Some(System(application, _, _)) =>
        match application
        case None => None
        case Some(Application(applicationId)) => applicationId
  }

  /** `getUser()`: `$this->context->system->user ?? null`. */
  function GetUser(r: Request): (u: Option<User>)
    ensures u.Some? <==>
      r.context.Some? && r.context.value.system.Some? && r.context.value.system.value.user.Some?
    ensures u.Some? ==> u == r.context.value.system.value.user
  {
    match r.context
    case None => None
    case Some(Context(system, _)) =>
      match system
      case None => None
      case Some(System(_, user, _)) => user
  }

  /** `getDevice()`: `$this->context->system->device ?? null`. */
  function GetDevice(r: Request): (d: Option<Device>)
    ensures d.Some? <==>
      r.context.Some? && r.context.value.system.Some? && r.context.value.system.value.device.Some?
    ensures d.Some? ==> d == r.context.value.system.value.device
  {
    match r.context
    case None => None
    case Some(Context(system, _)) =>
      match system
      case None => None
      case Some(System(_, _, device)) => device
  }

  /**
   * `getSessionAttribute($key, $default = null)`:
   * `$this->session->attributes[$key] ?? $default`.
   */
  function GetSessionAttribute(r: Request, key: string, fallback: Json := JNull): (v: Json)
    ensures
      (r.session.Some? && r.session.value.attributes.Some?
       && key in r.session.value.attributes.value && r.session.value.attributes.value[key] != JNull)
      ==> v == r.session.value.attributes.value[key]
    ensures
      !(r.session.Some? && r.session.value.attributes.Some?
        && key in r.session.value.attributes.value && r.session.value.attributes.value[key] != JNull)
      ==> v == fallback
  {
    match r.session
    case None => fallback
    case Some(session) =>
      match session.attributes
      case None => fallback
      case Some(attributes) =>
        if key in attributes && attributes[key] != JNull then attributes[key] else fallback
  }
}
