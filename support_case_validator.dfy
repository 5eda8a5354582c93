/**
 * The support-case schema.  Seven required strings, three of them drawn from
 * fixed choices and four bounded in length, and an optional `userSessionId`
 * string.  Callers validate with `stripUnknown`, so the accepted value is the
 * body without its unknown keys.
 */
module SupportCaseValidator {
  import opened Wrappers
  import opened JsStrings
  import opened Json
  import opened Joi

  const HELP_TYPES: set<string> := {"technical", "account", "other"}
  const SEVERITIES: set<string> := {"low", "medium", "high"}
  const CONTACT_METHODS: set<string> := {"chat", "email", "call"}

  datatype SupportCase = SupportCase(
    helpType: string,
    service: string,
    category: string,
    severity: string,
    subject: string,
    description: string,
    contactMethod: string,
    userSessionId: Option<string>)

  /** The field constraints, stated on a decoded case. */
  predicate Conforms(c: SupportCase) {
    && c.helpType in HELP_TYPES
    && c.service != "" && Utf16Length(c.service) <= 200
    && c.category != "" && Utf16Length(c.category) <= 200
    && c.severity in SEVERITIES
    && c.subject != "" && Utf16Length(c.subject) <= 500
    && c.description != "" && Utf16Length(c.description) <= 5000
    && c.contactMethod in CONTACT_METHODS
    && (c.userSessionId.Some? ==> c.userSessionId.value != "")
  }

  /** The JSON body of a case, holding exactly the schema's keys. */
  function EncodeCase(c: SupportCase): Json {
    var required := map[
      "helpType" := JString(c.helpType),
      "service" := JString(c.service),
      "category" := JString(c.category),
      "severity" := JString(c.severity),
      "subject" := JString(c.subject),
      "description" := JString(c.description),
      "contactMethod" := JString(c.contactMethod)];
    JObject(if c.userSessionId.Some? then required["userSessionId" := JString(c.userSessionId.value)] else required)
  }

  /** Each schema key of `body` holds the corresponding field of `c`, and `userSessionId` is absent exactly when `c` has none. */
  predicate CarriedBy(body: Json, c: SupportCase) {
    && Field(body, "helpType") == Some(JString(c.helpType))
    && Field(body, "service") == Some(JString(c.service))
    && Field(body, "category") == Some(JString(c.category))
    && Field(body, "severity") == Some(JString(c.severity))
    && Field(body, "subject") == Some(JString(c.subject))
    && Field(body, "description") == Some(JString(c.description))
    && Field(body, "contactMethod") == Some(JString(c.contactMethod))
    && Field(body, "userSessionId") == (if c.userSessionId.Some? then Some(JString(c.userSessionId.value)) else None)
  }

  /** The value of a key, as a string, when present (only used once the rule for that key passed). */
  function Text(body: Json, key: string): (t: string)
    ensures Field(body, key).Some? && Field(body, key).value.JString? ==> Field(body, key) == Some(JString(t))
  {
    match Field(body, key)
    case Some(JString(s)) => s
    case _ => ""
  }

  /** `userSessionId: Joi.string().optional()`. */
  predicate OptionalString(v: Option<Json>) {
    v.None? || IsString(v.value)
  }

  /** A required `Joi.string().valid(...choices)` field. */
  predicate RequiredChoice(body: Json, key: string, choices: set<string>) {
    Field(body, key).Some? && OneOf(Field(body, key).value, choices)
  }

  /** A required `Joi.string().min(lo).max(hi)` field. */
  predicate RequiredWithin(body: Json, key: string, lo: nat, hi: nat) {
    Field(body, key).Some? && StringWithin(Field(body, key).value, lo, hi)
  }

  /**
   * `supportCaseSchema.validate(body, {stripUnknown: true})`: the accepted
   * case, which conforms and is the body stripped of its unknown keys; or
   * `None` for an error.
   */
  function ValidateSupportCase(body: Json): (r: Option<SupportCase>)
    ensures r.Some? ==> Conforms(r.value)
    ensures r.Some? ==> body.JObject? && CarriedBy(body, r.value)
  {
    if body.JObject?
      && RequiredChoice(body, "helpType", HELP_TYPES)
      && RequiredWithin(body, "service", 1, 200)
      && RequiredWithin(body, "category", 1, 200)
      && RequiredChoice(body, "severity", SEVERITIES)
      && RequiredWithin(body, "subject", 1, 500)
      && RequiredWithin(body, "description", 1, 5000)
      && RequiredChoice(body, "contactMethod", CONTACT_METHODS)
      && OptionalString(Field(body, "userSessionId"))
    then
      Some(SupportCase(
        Text(body, "helpType"), Text(body, "service"), Text(body, "category"), Text(body, "severity"),
        Text(body, "subject"), Text(body, "description"), Text(body, "contactMethod"),
        if Field(body, "userSessionId").Some? then Some(Text(body, "userSessionId")) else None))
    else None
  }

  /** The body of a case carries that case. */
  lemma EncodeCarries(c: SupportCase)
    ensures CarriedBy(EncodeCase(c), c)
  {
  }

  /** The keys the schema names; `stripUnknown` drops every other key. */
  const SCHEMA_KEYS: set<string> :=
    {"helpType", "service", "category", "severity", "subject", "description", "contactMethod", "userSessionId"}

  /**
   * Any object carrying a conforming case is accepted as that case, whatever
   * other keys it holds.
   */
  lemma ConformingBodyAccepted(body: Json, c: SupportCase)
    requires body.JObject? && CarriedBy(body, c) && Conforms(c)
    ensures ValidateSupportCase(body) == Some(c)
  {
    assert RequiredChoice(body, "helpType", HELP_TYPES);
    assert RequiredWithin(body, "service", 1, 200) && RequiredWithin(body, "category", 1, 200);
    assert RequiredChoice(body, "severity", SEVERITIES);
    assert RequiredWithin(body, "subject", 1, 500) && RequiredWithin(body, "description", 1, 5000);
    assert RequiredChoice(body, "contactMethod", CONTACT_METHODS);
  }

  /** Any object carrying a case that breaks a rule is rejected. */
  lemma NonConformingBodyRejected(body: Json, c: SupportCase)
    requires CarriedBy(body, c) && !Conforms(c)
    ensures ValidateSupportCase(body) == None
  {
  }

  /** A key outside the schema never changes the verdict on a case's body. */
  lemma UnknownCaseKeysIgnored(c: SupportCase, k: string, v: Json)
    requires k !in SCHEMA_KEYS
    ensures ValidateSupportCase(JObject(EncodeCase(c).fields[k := v])) == ValidateSupportCase(EncodeCase(c))
  {
    var body := JObject(EncodeCase(c).fields[k := v]);
    EncodeCarries(c);
    assert CarriedBy(body, c);
    if Conforms(c) {
      ConformingBodyAccepted(body, c);
      ConformingBodyAccepted(EncodeCase(c), c);
    } else {
      NonConformingBodyRejected(body, c);
      NonConformingBodyRejected(EncodeCase(c), c);
    }
  }

  /** Every conforming case is accepted back from its body, unchanged. */
  lemma CaseRoundTrip(c: SupportCase)
    requires Conforms(c)
    ensures ValidateSupportCase(EncodeCase(c)) == Some(c)
  {
    EncodeCarries(c);
    ConformingBodyAccepted(EncodeCase(c), c);
  }

  /** A body with any field outside its rule is rejected: the rules are exactly `Conforms`. */
  lemma NonConformingRejected(c: SupportCase)
    requires !Conforms(c)
    ensures ValidateSupportCase(EncodeCase(c)) == None
  {
    EncodeCarries(c);
    NonConformingBodyRejected(EncodeCase(c), c);
  }
}
