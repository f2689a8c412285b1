/**
 * What `Request::fromAmazonRequest` promises: which error it throws and when, in which
 * order the two checks run, and what a returned envelope holds.
 */
module RequestProperties {
  import opened Wrappers
  import opened JsonValues
  import opened Variants
  import opened ValueObjects
  import opened Registry
  import opened Requests

  /**
   * The decoded body carries `request.type` set to the string `typ`, read straight off the
   * JSON: `request` is an object and neither it nor its `type` is missing or null.
   */
  ghost predicate NamesType(raw: Json, typ: string)
  {
    && Field(raw, "request").Some?
    && Field(raw.fields["request"], "type").Some?
    && raw.fields["request"].fields["type"] == JString(typ)
  }

  /**
   * The dispatch guard selects a class exactly when `request.type` is some class's `TYPE`,
   * and the class it selects has the incoming string as its own `TYPE`.
   */
  lemma ResolvedClassNamesItsType(env: Environment, raw: Json)
    ensures ResolvedClass(env, raw).Some? ==> NamesType(raw, env.classes.typeOf(ResolvedClass(env, raw).value))
    ensures ResolvedClass(env, raw).None? <==> forall c :: !NamesType(raw, env.classes.typeOf(c))
  {
    match RequestTypeField(raw)
    case Some(JString(typ)) =>
      RegistryKeys(env.classes, typ);
      if typ in RequestTypes(env.classes) {
        RegistryRoundTrip(env.classes, typ);
      }
    case _ =>
  }

  /** With distinct `TYPE` constants, a body naming class `c`'s `TYPE` dispatches to `c`. */
  lemma ResolvesToNamedClass(env: Environment, raw: Json, c: RequestClass)
    requires DistinctTypes(env.classes)
    requires NamesType(raw, env.classes.typeOf(c))
    ensures ResolvedClass(env, raw) == Some(c)
  {
    RegistryReachesEveryClass(env.classes);
    assert Resolve(env.classes, env.classes.typeOf(c)) == Some(c);
  }

  /**
   * `MissingRequestDataException` is thrown exactly when `request.type` is not some class's
   * `TYPE` (absent, null, not a string, or unknown), whatever the two header strings are:
   * the registry check comes before the header check.
   */
  lemma MissingRequestDataExactly(env: Environment, body: string, certChainUrl: string, signature: string)
    ensures FromAmazonRequest(env, body, certChainUrl, signature) == Failure(MissingRequestData)
        <==> forall c :: !NamesType(env.jsonDecode(body), env.classes.typeOf(c))
  {
    ResolvedClassNamesItsType(env, env.jsonDecode(body));
  }

  /** A body that does not decode to a JSON object is rejected with `MissingRequestData`. */
  lemma NonObjectBodyIsMissingRequestData(env: Environment, body: string, certChainUrl: string, signature: string)
    requires !env.jsonDecode(body).JObject?
    ensures FromAmazonRequest(env, body, certChainUrl, signature) == Failure(MissingRequestData)
  {
    MissingRequestDataExactly(env, body, certChainUrl, signature);
  }

  /**
   * When the selected class validates signatures, the parse fails with
   * `MissingRequiredHeader` exactly when either header is falsy, and succeeds otherwise.
   */
  lemma HeaderRequirement(env: Environment, body: string, certChainUrl: string, signature: string)
    requires ResolvedClass(env, env.jsonDecode(body)).Some?
    requires env.classes.validateSignature(ResolvedClass(env, env.jsonDecode(body)).value)
    ensures FromAmazonRequest(env, body, certChainUrl, signature) == Failure(MissingRequiredHeader)
        <==> Falsy(certChainUrl) || Falsy(signature)
    ensures FromAmazonRequest(env, body, certChainUrl, signature).Success?
        <==> !Falsy(certChainUrl) && !Falsy(signature)
  {
  }

  /**
   * When the selected class does not validate signatures, the parse succeeds whatever the
   * headers are (even empty), and they reach the envelope only as the two verbatim copies.
   */
  lemma HeadersIgnoredWithoutSignature(env: Environment, body: string, certChainUrl: string, signature: string,
                                       otherUrl: string, otherSignature: string)
    requires ResolvedClass(env, env.jsonDecode(body)).Some?
    requires !env.classes.validateSignature(ResolvedClass(env, env.jsonDecode(body)).value)
    ensures FromAmazonRequest(env, body, certChainUrl, signature).Success?
    ensures FromAmazonRequest(env, body, otherUrl, otherSignature)
         == Success(FromAmazonRequest(env, body, certChainUrl, signature).value
                      .(signatureCertChainUrl := otherUrl, signature := otherSignature))
  {
  }

  /**
   * A body whose `request.type` is `IntentRequest::TYPE`, sent without either header, is
   * rejected with `MissingRequiredHeader` when that class validates signatures.
   */
  lemma IntentWithoutHeadersIsRejected(env: Environment, body: string)
    requires DistinctTypes(env.classes)
    requires env.classes.validateSignature(IntentRequest)
    requires NamesType(env.jsonDecode(body), env.classes.typeOf(IntentRequest))
    ensures FromAmazonRequest(env, body, "", "") == Failure(MissingRequiredHeader)
  {
    ResolvesToNamedClass(env, env.jsonDecode(body), IntentRequest);
  }

  /**
   * What a returned envelope holds: the three inputs verbatim; `version`, `session` and
   * `context` set exactly when the top-level key is set (present and not null), from the
   * raw value; a request variant whose class has the incoming `request.type` as its `TYPE`
   * and was built from the `request` subtree; and, when that class validates signatures,
   * two truthy headers.
   */
  lemma SuccessShape(env: Environment, body: string, certChainUrl: string, signature: string)
    requires FromAmazonRequest(env, body, certChainUrl, signature).Success?
    ensures var e := FromAmazonRequest(env, body, certChainUrl, signature).value;
            var raw := env.jsonDecode(body);
            && e.amazonRequestBody == body
            && e.signatureCertChainUrl == certChainUrl
            && e.signature == signature
            && (e.version.Some? <==> Field(raw, "version").Some?)
            && (e.version.Some? ==> e.version.value == raw.fields["version"])
            && (e.session.Some? <==> Field(raw, "session").Some?)
            && (e.session.Some? ==> e.session.value == env.sessionFrom(raw.fields["session"]))
            && (e.context.Some? <==> Field(raw, "context").Some?)
            && (e.context.Some? ==> e.context.value == env.contextFrom(raw.fields["context"]))
            && NamesType(raw, env.classes.typeOf(e.request.requestClass))
            && e.request.fields == env.classes.fromAmazonRequest(e.request.requestClass, raw.fields["request"])
            && (env.classes.validateSignature(e.request.requestClass) ==> !Falsy(certChainUrl) && !Falsy(signature))
  {
    ResolvedClassNamesItsType(env, env.jsonDecode(body));
  }

  /**
   * On an envelope parsed from a body without `context`, the three context accessors
   * return null; without `session`, every session attribute lookup returns its default.
   */
  lemma AccessorsOnMissingParts(env: Environment, body: string, certChainUrl: string, signature: string,
                                key: string, fallback: Json)
    requires FromAmazonRequest(env, body, certChainUrl, signature).Success?
    ensures var e := FromAmazonRequest(env, body, certChainUrl, signature).value;
            var raw := env.jsonDecode(body);
            && (Field(raw, "context").None? ==> GetApplicationId(e).None? && GetUser(e).None? && GetDevice(e).None?)
            && (Field(raw, "session").None? ==> GetSessionAttribute(e, key, fallback) == fallback)
  {
  }
}
