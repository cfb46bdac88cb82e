/** Where every setting a resource is handed comes from: for each one the sources
    it is looked for in, in order, the first that has text in it giving the value. */
module SettingsSources {
  import opened Prelude
  import opened Settings

  // ------------------------------------------------------------------------ sources

  ghost predicate HasText(a: Option<string>) {
    a.Some? && a.value != ""
  }

  ghost function In(m: Env, name: string): Option<string> {
    if name in m then Some(m[name]) else None
  }

  /** The first source with text in it, and the last source if none has any. */
  ghost function First(sources: seq<Option<string>>): Option<string>
    requires sources != []
  {
    if |sources| == 1 || HasText(sources[0]) then sources[0] else First(sources[1..])
  }

  ghost function UnlessEmpty(a: Option<string>): Option<string> {
    if HasText(a) then a else None
  }

  ghost function Unslashed(a: Option<string>): Option<string> {
    if HasText(a) then Some(WithoutSlashes(a.value)) else a
  }

  /** Only slashes are dropped, and all of them at the end. */
  lemma {:induction false} DropsTrailingSlashes(s: string)
    ensures WithoutSlashes(s) <= s
    ensures WithoutSlashes(s) != "" ==> WithoutSlashes(s)[|WithoutSlashes(s)| - 1] != '/'
    ensures forall i | |WithoutSlashes(s)| <= i < |s| :: s[i] == '/'
  {
    if s != "" && s[|s| - 1] == '/' {
      DropsTrailingSlashes(s[..|s| - 1]);
    }
  }

  lemma FirstCons(a: Option<string>, rest: seq<Option<string>>)
    requires rest != []
    ensures First([a] + rest) == if HasText(a) then a else First(rest)
  {
    assert ([a] + rest)[1..] == rest;
  }

  lemma FirstOfTwo(a: Option<string>, b: Option<string>)
    ensures First([a, b]) == Or(a, b)
  {
    FirstCons(a, [b]);
    assert [a] + [b] == [a, b];
  }

  lemma FirstOfThree(a: Option<string>, b: Option<string>, c: Option<string>)
    ensures First([a, b, c]) == Or(a, Or(b, c)) == Or(Or(a, b), c)
  {
    FirstOfTwo(b, c);
    FirstCons(a, [b, c]);
    assert [a] + [b, c] == [a, b, c];
  }

  lemma FirstOfFour(a: Option<string>, b: Option<string>, c: Option<string>, d: Option<string>)
    ensures First([a, b, c, d]) == Or(a, Or(b, Or(c, d))) == Or(Or(a, Or(b, c)), d)
  {
    FirstOfThree(b, c, d);
    FirstCons(a, [b, c, d]);
    assert [a] + [b, c, d] == [a, b, c, d];
  }

  lemma FirstOfFive(a: Option<string>, b: Option<string>, c: Option<string>, d: Option<string>, e: Option<string>)
    ensures First([a, b, c, d, e]) == Or(a, Or(b, Or(c, Or(d, e))))
  {
    FirstOfFour(b, c, d, e);
    FirstCons(a, [b, c, d, e]);
    assert [a] + [b, c, d, e] == [a, b, c, d, e];
  }

  // ------------------------------------------------------------------- device access

  /** The credential says whose access it is: a key, or a user outside a reservation. */
  ghost predicate NamesCaller(cred: Env) {
    || HasText(In(cred, "api_key")) || HasText(In(cred, "token"))
    || (HasText(In(cred, "user")) && !HasText(In(cred, "reservation_id")))
  }

  /** Credential and environment do not give both an address and a key, so that the
      device-access configuration is asked. */
  ghost predicate AsksConfig(env: Env, cred: Env) {
    !(HasText(First([In(cred, "url"), In(env, "QFW_QC_URL")])) &&
      HasText(First([In(cred, "api_key"), In(cred, "token"), In(env, "QFW_API_KEY")])))
  }

  /** What the configuration says, where it is asked and answers. */
  ghost function Configured(env: Env, cred: Env, config: Option<Env>, name: string): Option<string> {
    if AsksConfig(env, cred) && config.Some? then In(config.value, name) else None
  }

  /** Access can be resolved. */
  ghost predicate HasAccess(env: Env, cred: Env, config: Option<Env>) {
    !AsksConfig(env, cred) || config.Some?
  }

  ghost function Address(env: Env, cred: Env, config: Option<Env>): Option<string> {
    Unslashed(First([In(cred, "url"), In(env, "QFW_QC_URL"), Configured(env, cred, config, "url")]))
  }

  ghost function AccessKey(env: Env, cred: Env, config: Option<Env>): Option<string> {
    First([In(cred, "api_key"), In(cred, "token"), In(env, "QFW_API_KEY"), Configured(env, cred, config, "api_key")])
  }

  lemma AccessIs(env: Env, cred: Env, config: Option<Env>)
    ensures AccessOf(env, cred, config).Some? <==> HasAccess(env, cred, config)
    ensures HasAccess(env, cred, config) ==>
              var a := AccessOf(env, cred, config).value;
              a.baseUrl == Address(env, cred, config) && a.token == AccessKey(env, cred, config)
  {
    FirstOfTwo(In(cred, "url"), In(env, "QFW_QC_URL"));
    FirstOfThree(In(cred, "api_key"), In(cred, "token"), In(env, "QFW_API_KEY"));
    FirstOfThree(In(cred, "url"), In(env, "QFW_QC_URL"), Configured(env, cred, config, "url"));
    FirstOfFour(In(cred, "api_key"), In(cred, "token"), In(env, "QFW_API_KEY"),
      Configured(env, cred, config, "api_key"));
  }

  lemma AccessExtras(env: Env, cred: Env, config: Option<Env>)
    requires HasAccess(env, cred, config)
    ensures AccessOf(env, cred, config).Some?
    ensures
      var a := AccessOf(env, cred, config).value;
      && UnlessEmpty(Or(In(cred, "service_crn"), a.crn))
         == UnlessEmpty(Or(In(cred, "service_crn"), Configured(env, cred, config, "service_crn")))
      && UnlessEmpty(Or(In(cred, "aws_access_key_id"), a.keyId))
         == UnlessEmpty(Or(In(cred, "aws_access_key_id"), Configured(env, cred, config, "aws_access_key_id")))
      && UnlessEmpty(Or(In(cred, "aws_secret_access_key"), a.secret))
         == UnlessEmpty(Or(In(cred, "aws_secret_access_key"), Configured(env, cred, config, "aws_secret_access_key")))
  {
    AccessIs(env, cred, config);
    FirstOfTwo(In(cred, "url"), In(env, "QFW_QC_URL"));
    FirstOfThree(In(cred, "api_key"), In(cred, "token"), In(env, "QFW_API_KEY"));
  }

  // ------------------------------------------------------------- the IBM resources

  ghost function NameIn(kind: Kind, f: Field): string {
    (match kind
     case QRS => "QRMI_IBM_QRS"
     case QCS => "QRMI_IBM_QCS"
     case QS => "QRMI_IBM_QS") +
    match f
    case Endpoint => "_ENDPOINT"
    case IamEndpoint => "_IAM_ENDPOINT"
    case ApiKey => "_IAM_APIKEY"
    case Crn => "_SERVICE_CRN"
    case S3Endpoint => "_S3_ENDPOINT"
    case S3EndpointForQsapi => "_S3_ENDPOINT_FOR_QSAPI"
    case S3Bucket => "_S3_BUCKET"
    case S3Region => "_S3_REGION"
    case AccessKeyId => "_AWS_ACCESS_KEY_ID"
    case SecretAccessKey => "_AWS_SECRET_ACCESS_KEY"
  }

  lemma KeyIsName(kind: Kind, f: Field)
    ensures Keys(kind)(f) == NameIn(kind, f)
  {
  }

  /** What the environment already holds for the resource. */
  ghost function Held(env: Env, backend: string, kind: Kind, f: Field): Option<string> {
    In(env, backend + "_" + NameIn(kind, f))
  }

  /** Whether access is resolved for the resource: always for a caller the credential
      names, and otherwise only where the endpoint or the key is not held, a failure
      counting as nothing found. */
  ghost predicate UsesAccess(env: Env, kind: Kind, backend: string, cred: Env, config: Option<Env>) {
    HasAccess(env, cred, config) &&
    (NamesCaller(cred) || !(HasText(Held(env, backend, kind, Endpoint)) && HasText(Held(env, backend, kind, ApiKey))))
  }

  ghost function IfUsed(used: bool, a: Option<string>): Option<string> {
    if used then a else None
  }

  /** The first of the sources of a field, leaving out what is already held. */
  ghost function Found(env: Env, kind: Kind, backend: string, cred: Env, desc: Env, config: Option<Env>, f: Field)
      : Option<string>
  {
    var used := UsesAccess(env, kind, backend, cred, config);
    match f
    case Endpoint => IfUsed(used, Address(env, cred, config))
    case ApiKey => IfUsed(used, AccessKey(env, cred, config))
    case Crn => UnlessEmpty(First([In(cred, "service_crn"), In(env, "QFW_IBM_SERVICE_CRN"),
        IfUsed(used, Configured(env, cred, config, "service_crn")), In(desc, "service_crn"), In(desc, "service-crn")]))
    case IamEndpoint => First([In(env, "QFW_IBM_IAM_ENDPOINT"), In(desc, "iam_endpoint"), In(desc, "iam-endpoint"),
        Some("https://iam.cloud.ibm.com")])
    case AccessKeyId => UnlessEmpty(First([In(cred, "aws_access_key_id"), In(env, "QFW_IBM_AWS_ACCESS_KEY_ID"),
        IfUsed(used, Configured(env, cred, config, "aws_access_key_id"))]))
    case SecretAccessKey => UnlessEmpty(First([In(cred, "aws_secret_access_key"),
        In(env, "QFW_IBM_AWS_SECRET_ACCESS_KEY"),
        IfUsed(used, Configured(env, cred, config, "aws_secret_access_key"))]))
    case S3Endpoint =>
      UnlessEmpty(First([In(env, "QFW_IBM_S3_ENDPOINT"), In(desc, "s3_endpoint"), In(desc, "s3-endpoint")]))
    case S3EndpointForQsapi =>
      UnlessEmpty(First([In(env, "QFW_IBM_S3_ENDPOINT_FOR_QSAPI"), In(desc, "s3_endpoint_for_qsapi"),
        In(desc, "s3-endpoint-for-qsapi")]))
    case S3Bucket => UnlessEmpty(First([In(env, "QFW_IBM_S3_BUCKET"), In(desc, "s3_bucket"), In(desc, "s3-bucket")]))
    case S3Region => UnlessEmpty(First([In(env, "QFW_IBM_S3_REGION"), In(desc, "s3_region"), In(desc, "s3-region")]))
  }

  /** The fields a credential that names the caller replaces, or clears. */
  ghost predicate IsCallers(f: Field) {
    f == Endpoint || f == ApiKey || f == Crn || f == AccessKeyId || f == SecretAccessKey
  }

  /** The value of a field: what is found, and what is held before that unless the
      credential replaces it. */
  ghost function Due(env: Env, kind: Kind, backend: string, cred: Env, desc: Env, config: Option<Env>, f: Field)
      : Option<string>
  {
    var found := Found(env, kind, backend, cred, desc, config, f);
    if NamesCaller(cred) && IsCallers(f) then found else First([Held(env, backend, kind, f), found])
  }

  ghost function DueTimeout(env: Env, backend: string, desc: Env): Option<string> {
    First([In(env, backend + "_" + "QRMI_JOB_TIMEOUT_SECONDS"), In(env, "QFW_IBM_JOB_TIMEOUT_SECONDS"),
      In(desc, "job_timeout_seconds"), In(desc, "job-timeout-seconds"), Some("300")])
  }

  /** No settings can be resolved exactly for a named caller whose access cannot be. */
  ghost predicate Fails(env: Env, cred: Env, config: Option<Env>) {
    NamesCaller(cred) && AsksConfig(env, cred) && config.None?
  }

  // --------------------------------------------------------- the resolver's settings

  lemma IbmAccessIs(env: Env, kind: Kind, backend: string, cred: Env, config: Option<Env>)
    ensures IbmAccess(env, backend, Keys(kind), cred, config).None? <==> Fails(env, cred, config)
    ensures !Fails(env, cred, config) ==>
              IbmAccess(env, backend, Keys(kind), cred, config) ==
              if UsesAccess(env, kind, backend, cred, config) then AccessOf(env, cred, config) else Some(NO_ACCESS)
  {
    AccessIs(env, cred, config);
    KeyIsName(kind, Endpoint);
    KeyIsName(kind, ApiKey);
  }

  lemma IdentityValues(env: Env, kind: Kind, backend: string, cred: Env, desc: Env, config: Option<Env>, a: Access)
    requires IbmAccess(env, backend, Keys(kind), cred, config) == Some(a)
    ensures
      var core := IbmCore(env, backend, Keys(kind), cred, desc, a);
      && core[0].value == Due(env, kind, backend, cred, desc, config, Endpoint)
      && core[1].value == Due(env, kind, backend, cred, desc, config, ApiKey)
  {
    IbmAccessIs(env, kind, backend, cred, config);
    AccessIs(env, cred, config);
    KeyIsName(kind, Endpoint);
    KeyIsName(kind, ApiKey);
    FirstOfTwo(Held(env, backend, kind, Endpoint), Found(env, kind, backend, cred, desc, config, Endpoint));
    FirstOfTwo(Held(env, backend, kind, ApiKey), Found(env, kind, backend, cred, desc, config, ApiKey));
  }

  lemma CrnIs(cred: Option<string>, env: Option<string>, known: Option<string>, conf: Option<string>,
              desc: Option<string>, dashed: Option<string>)
    requires UnlessEmpty(Or(cred, known)) == UnlessEmpty(Or(cred, conf))
    ensures Given(Or(cred, Or(env, Or(known, Or(desc, dashed))))) == UnlessEmpty(First([cred, env, conf, desc, dashed]))
  {
    FirstOfFive(cred, env, conf, desc, dashed);
  }

  lemma CrnValue(env: Env, kind: Kind, backend: string, cred: Env, desc: Env, config: Option<Env>, a: Access)
    requires IbmAccess(env, backend, Keys(kind), cred, config) == Some(a)
    ensures IbmCore(env, backend, Keys(kind), cred, desc, a)[2].value ==
            Due(env, kind, backend, cred, desc, config, Crn)
  {
    KnownIs(env, kind, backend, cred, config, a);
    KeyIsName(kind, Crn);
    CrnIs(In(cred, "service_crn"), In(env, "QFW_IBM_SERVICE_CRN"), a.crn,
      IfUsed(UsesAccess(env, kind, backend, cred, config), Configured(env, cred, config, "service_crn")),
      In(desc, "service_crn"), In(desc, "service-crn"));
    FirstOfTwo(Held(env, backend, kind, Crn), Found(env, kind, backend, cred, desc, config, Crn));
  }

  /** What the access used says beside address and key, where the credential does not
      say it itself. */
  lemma KnownIs(env: Env, kind: Kind, backend: string, cred: Env, config: Option<Env>, a: Access)
    requires IbmAccess(env, backend, Keys(kind), cred, config) == Some(a)
    ensures
      var used := UsesAccess(env, kind, backend, cred, config);
      && UnlessEmpty(Or(In(cred, "service_crn"), a.crn))
         == UnlessEmpty(Or(In(cred, "service_crn"), IfUsed(used, Configured(env, cred, config, "service_crn"))))
      && UnlessEmpty(Or(In(cred, "aws_access_key_id"), a.keyId))
         == UnlessEmpty(Or(In(cred, "aws_access_key_id"),
              IfUsed(used, Configured(env, cred, config, "aws_access_key_id"))))
      && UnlessEmpty(Or(In(cred, "aws_secret_access_key"), a.secret))
         == UnlessEmpty(Or(In(cred, "aws_secret_access_key"),
              IfUsed(used, Configured(env, cred, config, "aws_secret_access_key"))))
  {
    IbmAccessIs(env, kind, backend, cred, config);
    if UsesAccess(env, kind, backend, cred, config) {
      AccessExtras(env, cred, config);
    }
  }

  lemma IamValue(env: Env, kind: Kind, backend: string, cred: Env, desc: Env, config: Option<Env>, a: Access)
    ensures IbmCore(env, backend, Keys(kind), cred, desc, a)[3].value
            == Due(env, kind, backend, cred, desc, config, IamEndpoint)
  {
    KeyIsName(kind, IamEndpoint);
    FirstOfFour(In(env, "QFW_IBM_IAM_ENDPOINT"), In(desc, "iam_endpoint"), In(desc, "iam-endpoint"),
      Some("https://iam.cloud.ibm.com"));
    FirstOfTwo(Held(env, backend, kind, IamEndpoint), Found(env, kind, backend, cred, desc, config, IamEndpoint));
  }

  lemma SecretIs(env: Env, backend: string, key: string, replace: bool, cred: Env, field: string, name: string,
                 known: Option<string>, conf: Option<string>)
    requires UnlessEmpty(Or(In(cred, field), known)) == UnlessEmpty(Or(In(cred, field), conf))
    ensures
      var found := UnlessEmpty(First([In(cred, field), In(env, name), conf]));
      StorageSecret(env, backend, key, replace, cred, field, name, known).value
      == if replace then found else First([In(env, backend + "_" + key), found])
  {
    FirstOfThree(In(cred, field), In(env, name), conf);
    FirstOfTwo(In(env, backend + "_" + key), UnlessEmpty(First([In(cred, field), In(env, name), conf])));
  }

  lemma KeyIdSetting(env: Env, kind: Kind, backend: string, cred: Env, desc: Env, a: Access)
    ensures StorageSettings(env, backend, Keys(kind), cred, desc, a)[0]
            == StorageSecret(env, backend, NameIn(kind, AccessKeyId), NamesCaller(cred), cred, "aws_access_key_id",
                 "QFW_IBM_AWS_ACCESS_KEY_ID", a.keyId)
  {
    KeyIsName(kind, AccessKeyId);
  }

  lemma KeyIdValue(env: Env, kind: Kind, backend: string, cred: Env, desc: Env, config: Option<Env>, a: Access)
    requires IbmAccess(env, backend, Keys(kind), cred, config) == Some(a)
    ensures StorageSettings(env, backend, Keys(kind), cred, desc, a)[0].value
            == Due(env, kind, backend, cred, desc, config, AccessKeyId)
  {
    KnownIs(env, kind, backend, cred, config, a);
    KeyIdSetting(env, kind, backend, cred, desc, a);
    SecretIs(env, backend, NameIn(kind, AccessKeyId), NamesCaller(cred), cred, "aws_access_key_id",
      "QFW_IBM_AWS_ACCESS_KEY_ID", a.keyId,
      IfUsed(UsesAccess(env, kind, backend, cred, config), Configured(env, cred, config, "aws_access_key_id")));
  }

  lemma SecretSetting(env: Env, kind: Kind, backend: string, cred: Env, desc: Env, a: Access)
    ensures StorageSettings(env, backend, Keys(kind), cred, desc, a)[1]
            == StorageSecret(env, backend, NameIn(kind, SecretAccessKey), NamesCaller(cred), cred,
                 "aws_secret_access_key", "QFW_IBM_AWS_SECRET_ACCESS_KEY", a.secret)
  {
    KeyIsName(kind, SecretAccessKey);
  }

  lemma SecretValue(env: Env, kind: Kind, backend: string, cred: Env, desc: Env, config: Option<Env>, a: Access)
    requires IbmAccess(env, backend, Keys(kind), cred, config) == Some(a)
    ensures StorageSettings(env, backend, Keys(kind), cred, desc, a)[1].value
            == Due(env, kind, backend, cred, desc, config, SecretAccessKey)
  {
    KnownIs(env, kind, backend, cred, config, a);
    SecretSetting(env, kind, backend, cred, desc, a);
    SecretIs(env, backend, NameIn(kind, SecretAccessKey), NamesCaller(cred), cred, "aws_secret_access_key",
      "QFW_IBM_AWS_SECRET_ACCESS_KEY", a.secret,
      IfUsed(UsesAccess(env, kind, backend, cred, config), Configured(env, cred, config, "aws_secret_access_key")));
  }

  lemma StoreFieldIs(env: Env, backend: string, key: string, name: string, desc: Env, field: string, dashed: string)
    ensures StoreField(env, backend, key, name, desc, field, dashed).value
            == First([In(env, backend + "_" + key),
                 UnlessEmpty(First([In(env, name), In(desc, field), In(desc, dashed)]))])
  {
    FirstOfThree(In(env, name), In(desc, field), In(desc, dashed));
    FirstOfTwo(In(env, backend + "_" + key), UnlessEmpty(First([In(env, name), In(desc, field), In(desc, dashed)])));
  }

  lemma StoreEndpointValue(env: Env, kind: Kind, backend: string, cred: Env, desc: Env, config: Option<Env>, a: Access)
    ensures StorageSettings(env, backend, Keys(kind), cred, desc, a)[2].value
            == Due(env, kind, backend, cred, desc, config, S3Endpoint)
  {
    KeyIsName(kind, S3Endpoint);
    StoreFieldIs(env, backend, NameIn(kind, S3Endpoint), "QFW_IBM_S3_ENDPOINT", desc, "s3_endpoint", "s3-endpoint");
  }

  lemma QsapiEndpointValue(env: Env, kind: Kind, backend: string, cred: Env, desc: Env, config: Option<Env>, a: Access)
    ensures StorageSettings(env, backend, Keys(kind), cred, desc, a)[3].value
            == Due(env, kind, backend, cred, desc, config, S3EndpointForQsapi)
  {
    KeyIsName(kind, S3EndpointForQsapi);
    StoreFieldIs(env, backend, NameIn(kind, S3EndpointForQsapi), "QFW_IBM_S3_ENDPOINT_FOR_QSAPI", desc,
      "s3_endpoint_for_qsapi", "s3-endpoint-for-qsapi");
  }

  lemma BucketValue(env: Env, kind: Kind, backend: string, cred: Env, desc: Env, config: Option<Env>, a: Access)
    ensures StorageSettings(env, backend, Keys(kind), cred, desc, a)[4].value
            == Due(env, kind, backend, cred, desc, config, S3Bucket)
  {
    KeyIsName(kind, S3Bucket);
    StoreFieldIs(env, backend, NameIn(kind, S3Bucket), "QFW_IBM_S3_BUCKET", desc, "s3_bucket", "s3-bucket");
  }

  lemma RegionValue(env: Env, kind: Kind, backend: string, cred: Env, desc: Env, config: Option<Env>, a: Access)
    ensures StorageSettings(env, backend, Keys(kind), cred, desc, a)[5].value
            == Due(env, kind, backend, cred, desc, config, S3Region)
  {
    KeyIsName(kind, S3Region);
    StoreFieldIs(env, backend, NameIn(kind, S3Region), "QFW_IBM_S3_REGION", desc, "s3_region", "s3-region");
  }

  lemma TimeoutValue(env: Env, backend: string, desc: Env)
    ensures JobTimeout(env, backend, desc).value == DueTimeout(env, backend, desc)
  {
    FirstOfFive(In(env, backend + "_" + "QRMI_JOB_TIMEOUT_SECONDS"), In(env, "QFW_IBM_JOB_TIMEOUT_SECONDS"),
      In(desc, "job_timeout_seconds"), In(desc, "job-timeout-seconds"), Some("300"));
  }

  // ----------------------------------------------------- what the resource is handed

  /** Where a field is in the resolver's list. */
  ghost function PlaceOf(f: Field): nat {
    match f
    case Endpoint => 0
    case ApiKey => 1
    case Crn => 2
    case IamEndpoint => 3
    case AccessKeyId => 4
    case SecretAccessKey => 5
    case S3Endpoint => 6
    case S3EndpointForQsapi => 7
    case S3Bucket => 8
    case S3Region => 9
  }

  /** The resolver's list holds the due value of a field in its place. */
  ghost predicate ListsDue(settings: seq<Setting>, env: Env, kind: Kind, backend: string, cred: Env, desc: Env,
                           config: Option<Env>, f: Field) {
    PlaceOf(f) < |settings| && settings[PlaceOf(f)].value == Due(env, kind, backend, cred, desc, config, f)
  }

  lemma CoreAt(env: Env, kind: Kind, backend: string, cred: Env, desc: Env, config: Option<Env>, a: Access, f: Field)
    requires IbmAccess(env, backend, Keys(kind), cred, config) == Some(a) && PlaceOf(f) < 4
    ensures ListsDue(IbmCore(env, backend, Keys(kind), cred, desc, a), env, kind, backend, cred, desc, config, f)
  {
    match f
    case Endpoint => IdentityValues(env, kind, backend, cred, desc, config, a);
    case ApiKey => IdentityValues(env, kind, backend, cred, desc, config, a);
    case Crn => CrnValue(env, kind, backend, cred, desc, config, a);
    case IamEndpoint => IamValue(env, kind, backend, cred, desc, config, a);
  }

  lemma StorageAt(env: Env, kind: Kind, backend: string, cred: Env, desc: Env, config: Option<Env>, a: Access, f: Field)
    requires IbmAccess(env, backend, Keys(kind), cred, config) == Some(a) && PlaceOf(f) >= 4
    ensures StorageSettings(env, backend, Keys(kind), cred, desc, a)[PlaceOf(f) - 4].value
            == Due(env, kind, backend, cred, desc, config, f)
  {
    match f
    case AccessKeyId => KeyIdValue(env, kind, backend, cred, desc, config, a);
    case SecretAccessKey => SecretValue(env, kind, backend, cred, desc, config, a);
    case S3Endpoint => StoreEndpointValue(env, kind, backend, cred, desc, config, a);
    case S3EndpointForQsapi => QsapiEndpointValue(env, kind, backend, cred, desc, config, a);
    case S3Bucket => BucketValue(env, kind, backend, cred, desc, config, a);
    case S3Region => RegionValue(env, kind, backend, cred, desc, config, a);
  }

  lemma FieldPlace(kind: Kind, f: Field)
    requires kind == QS || PlaceOf(f) < 4
    ensures PlaceOf(f) < |FieldsOf(kind)| && FieldsOf(kind)[PlaceOf(f)] == f
  {
  }

  lemma FieldNamed(env: Env, kind: Kind, backend: string, cred: Env, desc: Env, config: Option<Env>, f: Field)
    requires IbmSettings(env, kind, backend, cred, desc, config).Some? && (kind == QS || PlaceOf(f) < 4)
    ensures
      var settings := IbmSettings(env, kind, backend, cred, desc, config).value.settings;
      PlaceOf(f) < |settings| && settings[PlaceOf(f)].key == NameIn(kind, f)
  {
    SettingsAreFields(env, kind, backend, cred, desc, config);
    KeyIsName(kind, f);
    FieldPlace(kind, f);
  }

  /** The settings are the core ones, followed by those of the object store. */
  lemma SettingsParts(env: Env, kind: Kind, backend: string, cred: Env, desc: Env, config: Option<Env>, a: Access)
    requires IbmAccess(env, backend, Keys(kind), cred, config) == Some(a)
    ensures
      var r := IbmSettings(env, kind, backend, cred, desc, config);
      var core, store := IbmCore(env, backend, Keys(kind), cred, desc, a),
                         StorageSettings(env, backend, Keys(kind), cred, desc, a);
      && r.Some? && core <= r.value.settings && |core| == 4
      && (kind == QS ==> |store| == 6 && store <= r.value.settings[4..])
  {
  }

  lemma DueInCore(core: seq<Setting>, settings: seq<Setting>, env: Env, kind: Kind, backend: string, cred: Env,
                  desc: Env, config: Option<Env>, f: Field)
    requires core <= settings && ListsDue(core, env, kind, backend, cred, desc, config, f)
    ensures ListsDue(settings, env, kind, backend, cred, desc, config, f)
  {
  }

  lemma DueInStore(store: seq<Setting>, settings: seq<Setting>, env: Env, kind: Kind, backend: string, cred: Env,
                   desc: Env, config: Option<Env>, f: Field)
    requires |settings| >= 4 && store <= settings[4..] && 4 <= PlaceOf(f) < 4 + |store|
    requires store[PlaceOf(f) - 4].value == Due(env, kind, backend, cred, desc, config, f)
    ensures ListsDue(settings, env, kind, backend, cred, desc, config, f)
  {
    assert settings[PlaceOf(f)] == settings[4..][PlaceOf(f) - 4];
  }

  lemma FieldAt(env: Env, kind: Kind, backend: string, cred: Env, desc: Env, config: Option<Env>, f: Field)
    requires IbmSettings(env, kind, backend, cred, desc, config).Some? && (kind == QS || PlaceOf(f) < 4)
    ensures ListsDue(IbmSettings(env, kind, backend, cred, desc, config).value.settings,
                     env, kind, backend, cred, desc, config, f)
  {
    var a := IbmAccess(env, backend, Keys(kind), cred, config).value;
    SettingsParts(env, kind, backend, cred, desc, config, a);
    var settings := IbmSettings(env, kind, backend, cred, desc, config).value.settings;
    if PlaceOf(f) < 4 {
      CoreAt(env, kind, backend, cred, desc, config, a, f);
      DueInCore(IbmCore(env, backend, Keys(kind), cred, desc, a), settings, env, kind, backend, cred, desc, config, f);
    } else {
      StorageAt(env, kind, backend, cred, desc, config, a, f);
      DueInStore(StorageSettings(env, backend, Keys(kind), cred, desc, a), settings, env, kind, backend, cred, desc,
        config, f);
    }
  }

  /** Every setting an IBM resource is handed, from its own sources in their own
      order; none at all exactly for a named caller whose access cannot be resolved. */
  lemma IbmHands(env: Env, kind: Kind, backend: string, cred: Env, desc: Env, config: Option<Env>, f: Field)
    requires kind == QS || f == Endpoint || f == ApiKey || f == Crn || f == IamEndpoint
    ensures IbmSettings(env, kind, backend, cred, desc, config).None? <==> Fails(env, cred, config)
    ensures !Fails(env, cred, config) ==>
              Handed(env, kind, backend, cred, desc, config, NameIn(kind, f))
              == Due(env, kind, backend, cred, desc, config, f)
  {
    IbmAccessIs(env, kind, backend, cred, config);
    if !Fails(env, cred, config) {
      FieldNamed(env, kind, backend, cred, desc, config, f);
      FieldAt(env, kind, backend, cred, desc, config, f);
      HandedIsResolved(env, kind, backend, cred, desc, config, PlaceOf(f));
    }
  }

  lemma IbmHandsTimeout(env: Env, backend: string, cred: Env, desc: Env, config: Option<Env>)
    requires !Fails(env, cred, config)
    ensures IbmSettings(env, QS, backend, cred, desc, config).Some?
    ensures Handed(env, QS, backend, cred, desc, config, "QRMI_JOB_TIMEOUT_SECONDS") == DueTimeout(env, backend, desc)
  {
    IbmAccessIs(env, QS, backend, cred, config);
    SettingsAreFields(env, QS, backend, cred, desc, config);
    HandedIsResolved(env, QS, backend, cred, desc, config, 10);
    TimeoutValue(env, backend, desc);
  }

  /** What a resource cannot be opened without. */
  lemma IbmNeeds(env: Env, kind: Kind, backend: string, cred: Env, desc: Env, config: Option<Env>, key: string)
    requires IbmSettings(env, kind, backend, cred, desc, config).Some?
    ensures key in IbmSettings(env, kind, backend, cred, desc, config).value.required <==>
              || key == NameIn(kind, Endpoint) || key == NameIn(kind, IamEndpoint) || key == NameIn(kind, ApiKey)
              || key == NameIn(kind, Crn)
              || (kind == QS &&
                   (|| key == NameIn(kind, S3Endpoint) || key == NameIn(kind, S3Bucket) || key == NameIn(kind, S3Region)
                    || key == NameIn(kind, AccessKeyId) || key == NameIn(kind, SecretAccessKey)
                    || key == "QRMI_JOB_TIMEOUT_SECONDS"))
  {
    forall f ensures Keys(kind)(f) == NameIn(kind, f) {
      KeyIsName(kind, f);
    }
  }

  // ------------------------------------------------------------- the IQM resources

  ghost function HandedIqm(env: Env, backend: string, cred: Env, config: Option<Env>, general: Option<Env>,
                           key: string): Option<string>
    requires IqmSettings(env, backend, cred, config, general).Some?
  {
    In(View(WriteAll(env, backend, IqmSettings(env, backend, cred, config, general).value.settings), backend), key)
  }

  ghost function HeldIqm(env: Env, backend: string, key: string): Option<string> {
    In(env, backend + "_" + key)
  }

  /** Whether the environment already holds the IQM pair. */
  ghost predicate HoldsPair(env: Env, backend: string) {
    HasText(HeldIqm(env, backend, "QRMI_IQM_ISA_ENDPOINT")) && HasText(HeldIqm(env, backend, "QRMI_IQM_ISA_TOKEN"))
  }

  /** The resolver lists the IQM pair. */
  ghost predicate ListsPair(r: Resolved, endpoint: Option<string>, token: Option<string>) {
    r.settings == [Setting("QRMI_IQM_ISA_ENDPOINT", endpoint), Setting("QRMI_IQM_ISA_TOKEN", token)]
  }

  lemma PairIsHanded(env: Env, backend: string, cred: Env, config: Option<Env>, general: Option<Env>,
                     endpoint: Option<string>, token: Option<string>)
    requires IqmSettings(env, backend, cred, config, general).Some?
    requires ListsPair(IqmSettings(env, backend, cred, config, general).value, endpoint, token)
    ensures HandedIqm(env, backend, cred, config, general, "QRMI_IQM_ISA_ENDPOINT") == endpoint
    ensures HandedIqm(env, backend, cred, config, general, "QRMI_IQM_ISA_TOKEN") == token
  {
    var settings := IqmSettings(env, backend, cred, config, general).value.settings;
    IqmNamesSettings(env, backend, cred, config, general);
    assert "QRMI_IQM_ISA_ENDPOINT"[13] == 'E' && "QRMI_IQM_ISA_TOKEN"[13] == 'T';
    ResourceReads(env, backend, settings, 0);
    ResourceReads(env, backend, settings, 1);
  }

  /** What an IQM resource is handed for a caller the credential names: what their
      access gives, and what is held after that. */
  lemma IqmHandsNamed(env: Env, backend: string, cred: Env, config: Option<Env>, general: Option<Env>)
    requires NamesCaller(cred)
    ensures
      var r := IqmSettings(env, backend, cred, config, general);
      && (r.None? <==> AsksConfig(env, cred) && config.None?)
      && (r.Some? ==>
            && HandedIqm(env, backend, cred, config, general, "QRMI_IQM_ISA_ENDPOINT")
               == First([Address(env, cred, config), HeldIqm(env, backend, "QRMI_IQM_ISA_ENDPOINT")])
            && HandedIqm(env, backend, cred, config, general, "QRMI_IQM_ISA_TOKEN")
               == First([AccessKey(env, cred, config), HeldIqm(env, backend, "QRMI_IQM_ISA_TOKEN")])
            && r.value.required == [])
  {
    var r := IqmSettings(env, backend, cred, config, general);
    var endpoint := First([Address(env, cred, config), HeldIqm(env, backend, "QRMI_IQM_ISA_ENDPOINT")]);
    var token := First([AccessKey(env, cred, config), HeldIqm(env, backend, "QRMI_IQM_ISA_TOKEN")]);
    AccessIs(env, cred, config);
    FirstOfTwo(Address(env, cred, config), HeldIqm(env, backend, "QRMI_IQM_ISA_ENDPOINT"));
    FirstOfTwo(AccessKey(env, cred, config), HeldIqm(env, backend, "QRMI_IQM_ISA_TOKEN"));
    if r.Some? {
      PairIsHanded(env, backend, cred, config, general, endpoint, token);
    }
  }

  /** And for one it does not name: what is held, and what general access gives after
      that, which must then give the pair. */
  lemma IqmHandsOthers(env: Env, backend: string, cred: Env, config: Option<Env>, general: Option<Env>)
    requires !NamesCaller(cred)
    ensures
      var r := IqmSettings(env, backend, cred, config, general);
      && (r.None? <==> !HoldsPair(env, backend) && AsksConfig(env, map[]) && general.None?)
      && (r.Some? ==>
            && HandedIqm(env, backend, cred, config, general, "QRMI_IQM_ISA_ENDPOINT")
               == First([HeldIqm(env, backend, "QRMI_IQM_ISA_ENDPOINT"), Address(env, map[], general)])
            && HandedIqm(env, backend, cred, config, general, "QRMI_IQM_ISA_TOKEN")
               == First([HeldIqm(env, backend, "QRMI_IQM_ISA_TOKEN"), AccessKey(env, map[], general)])
            && r.value.required
               == if HoldsPair(env, backend) then [] else ["QRMI_IQM_ISA_ENDPOINT", "QRMI_IQM_ISA_TOKEN"])
  {
    var r := IqmSettings(env, backend, cred, config, general);
    var endpoint := First([HeldIqm(env, backend, "QRMI_IQM_ISA_ENDPOINT"), Address(env, map[], general)]);
    var token := First([HeldIqm(env, backend, "QRMI_IQM_ISA_TOKEN"), AccessKey(env, map[], general)]);
    AccessIs(env, map[], general);
    FirstOfTwo(HeldIqm(env, backend, "QRMI_IQM_ISA_ENDPOINT"), Address(env, map[], general));
    FirstOfTwo(HeldIqm(env, backend, "QRMI_IQM_ISA_TOKEN"), AccessKey(env, map[], general));
    if r.Some? {
      PairIsHanded(env, backend, cred, config, general, endpoint, token);
    }
  }
}
