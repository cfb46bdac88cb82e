/** The settings an IBM or IQM resource is opened with, resolved from the caller's
    credential, the process environment, the device descriptor and the
    device-access configuration, and handed over as a map or through the
    environment itself. */
module Settings {
  import opened Prelude

  type Env = map<string, string>

  /** No value clears the setting. */
  datatype Setting = Setting(key: string, value: Option<string>)

  datatype Resolved = Resolved(settings: seq<Setting>, required: seq<string>)

  // ----------------------------------------------------------------- text and lookup

  function Get(m: Env, name: string): Option<string> {
    if name in m then Some(m[name]) else None
  }

  /** Python's `or` on optional text: the empty string counts as absent. */
  function Or(a: Option<string>, b: Option<string>): Option<string> {
    if a.Some? && a.value != "" then a else b
  }

  predicate Truthy(a: Option<string>) {
    a.Some? && a.value != ""
  }

  /** `str(x) if x else None`. */
  function Given(a: Option<string>): Option<string> {
    if Truthy(a) then a else None
  }

  function WithoutSlashes(s: string): string {
    if s != "" && s[|s| - 1] == '/' then WithoutSlashes(s[..|s| - 1]) else s
  }

  /** The environment variable of a resource's setting. */
  function Var(backend: string, key: string): string {
    backend + "_" + key
  }

  predicate IsSetting(key: string) {
    |key| >= 5 && key[..5] == "QRMI_"
  }

  // --------------------------------------------------------------------- device access

  datatype Access = Access(
    baseUrl: Option<string>, token: Option<string>, crn: Option<string>,
    keyId: Option<string>, secret: Option<string>)

  const NO_ACCESS := Access(None, None, None, None, None)

  predicate IdentifiesCaller(cred: Env) {
    Truthy(Get(cred, "api_key")) || Truthy(Get(cred, "token"))
        || (Truthy(Get(cred, "user")) && !Truthy(Get(cred, "reservation_id")))
  }

  /** `config` is what device access answers, none when it raises. */
  function AccessOf(env: Env, cred: Env, config: Option<Env>): Option<Access> {
    var baseUrl := Or(Get(cred, "url"), Get(env, "QFW_QC_URL"));
    var token := Or(Get(cred, "api_key"), Or(Get(cred, "token"), Get(env, "QFW_API_KEY")));
    var crn, keyId, secret := Get(cred, "service_crn"), Given(Get(cred, "aws_access_key_id")),
        Given(Get(cred, "aws_secret_access_key"));
    if Truthy(baseUrl) && Truthy(token) then Some(Access(Trim(baseUrl), token, crn, keyId, secret))
    else if config.None? then None
    else
      var cfg := config.value;
      Some(Access(
        Trim(Or(baseUrl, Get(cfg, "url"))),
        Or(token, Get(cfg, "api_key")),
        Or(crn, Get(cfg, "service_crn")),
        Or(keyId, Given(Get(cfg, "aws_access_key_id"))),
        Or(secret, Given(Get(cfg, "aws_secret_access_key")))))
  }

  function Trim(url: Option<string>): Option<string> {
    if Truthy(url) then Some(WithoutSlashes(url.value)) else url
  }

  // ----------------------------------------------------------------------- resolvers

  const IQM_ENDPOINT := "QRMI_IQM_ISA_ENDPOINT"
  const IQM_TOKEN := "QRMI_IQM_ISA_TOKEN"

  /** `general` is what device access answers with no credential. */
  function IqmSettings(env: Env, backend: string, cred: Env, config: Option<Env>,
                       general: Option<Env>): Option<Resolved> {
    var endpoint, token := Get(env, Var(backend, IQM_ENDPOINT)), Get(env, Var(backend, IQM_TOKEN));
    if IdentifiesCaller(cred) then
      match AccessOf(env, cred, config)
      case None => None
      case Some(a) =>
        Some(Resolved([Setting(IQM_ENDPOINT, Or(a.baseUrl, endpoint)), Setting(IQM_TOKEN, Or(a.token, token))], []))
    else if Truthy(endpoint) && Truthy(token) then
      Some(Resolved([Setting(IQM_ENDPOINT, endpoint), Setting(IQM_TOKEN, token)], []))
    else
      match AccessOf(env, map[], general)
      case None => None
      case Some(a) =>
        Some(Resolved([Setting(IQM_ENDPOINT, Or(endpoint, a.baseUrl)), Setting(IQM_TOKEN, Or(token, a.token))],
            [IQM_ENDPOINT, IQM_TOKEN]))
  }

  datatype Kind = QRS | QCS | QS

  function Prefix(kind: Kind): string {
    match kind
    case QRS => "QRMI_IBM_QRS"
    case QCS => "QRMI_IBM_QCS"
    case QS => "QRMI_IBM_QS"
  }

  datatype Field =
    | Endpoint | IamEndpoint | ApiKey | Crn
    | S3Endpoint | S3EndpointForQsapi | S3Bucket | S3Region | AccessKeyId | SecretAccessKey

  function Suffix(f: Field): string {
    match f
    case Endpoint => "_ENDPOINT"
    case IamEndpoint => "_IAM_ENDPOINT"
    case ApiKey => "_IAM_APIKEY"
    case Crn => "_SERVICE_CRN"
    case S3Endpoint => "_S3_ENDPOINT"
    case S3EndpointForQsapi => "_S3_ENDPOINT_FOR_QSAPI"
    case S3Bucket => "_S3_BUCKET"
    case S3Region => "_S3_REGION"
    case AccessKeyId => "_AWS_ACCESS_KEY_ID"
    case SecretAccessKey => "_AWS_SECRET_ACCESS_KEY"
  }

  /** The setting of each field for one kind of IBM service. */
  function Keys(kind: Kind): Field -> string {
    (f: Field) => Prefix(kind) + Suffix(f)
  }

  const DEFAULT_IAM_ENDPOINT := "https://iam.cloud.ibm.com"
  const JOB_TIMEOUT_SETTING := "QRMI_JOB_TIMEOUT_SECONDS"
  const DEFAULT_JOB_TIMEOUT := "300"

  function Current(env: Env, backend: string, key: string): Option<string> {
    Get(env, Var(backend, key))
  }

  /** With a credential that names the caller the value is replaced or cleared;
      otherwise only a missing one is filled in. */
  function ReplaceOrFill(env: Env, backend: string, key: string, replace: bool, value: Option<string>): Setting {
    Setting(key, if replace then value else Or(Current(env, backend, key), value))
  }

  function ServiceCrn(env: Env, cred: Env, desc: Env, a: Access): Option<string> {
    Given(Or(Get(cred, "service_crn"),
        Or(Get(env, "QFW_IBM_SERVICE_CRN"), Or(a.crn, Or(Get(desc, "service_crn"), Get(desc, "service-crn"))))))
  }

  function IamEndpointFor(env: Env, backend: string, key: string, desc: Env): Option<string> {
    Or(Current(env, backend, key),
       Or(Get(env, "QFW_IBM_IAM_ENDPOINT"),
           Or(Get(desc, "iam_endpoint"), Or(Get(desc, "iam-endpoint"), Some(DEFAULT_IAM_ENDPOINT)))))
  }

  function StoreField(env: Env, backend: string, key: string, name: string, desc: Env, field: string,
                      dashed: string): Setting {
    Setting(key, Or(Current(env, backend, key), Given(Or(Get(env, name), Or(Get(desc, field), Get(desc, dashed))))))
  }

  function StorageSecret(env: Env, backend: string, key: string, replace: bool, cred: Env, field: string, name: string,
                         known: Option<string>): Setting {
    ReplaceOrFill(env, backend, key, replace, Given(Or(Get(cred, field), Or(Get(env, name), known))))
  }

  function StorageSettings(env: Env, backend: string, key: Field -> string, cred: Env, desc: Env,
                           a: Access): seq<Setting> {
    var replace := IdentifiesCaller(cred);
    [ StorageSecret(env, backend, key(AccessKeyId), replace, cred, "aws_access_key_id", "QFW_IBM_AWS_ACCESS_KEY_ID",
        a.keyId),
      StorageSecret(env, backend, key(SecretAccessKey), replace, cred, "aws_secret_access_key",
          "QFW_IBM_AWS_SECRET_ACCESS_KEY", a.secret),
      StoreField(env, backend, key(S3Endpoint), "QFW_IBM_S3_ENDPOINT", desc, "s3_endpoint", "s3-endpoint"),
      StoreField(env, backend, key(S3EndpointForQsapi), "QFW_IBM_S3_ENDPOINT_FOR_QSAPI", desc, "s3_endpoint_for_qsapi",
          "s3-endpoint-for-qsapi"),
      StoreField(env, backend, key(S3Bucket), "QFW_IBM_S3_BUCKET", desc, "s3_bucket", "s3-bucket"),
      StoreField(env, backend, key(S3Region), "QFW_IBM_S3_REGION", desc, "s3_region", "s3-region") ]
  }

  function JobTimeout(env: Env, backend: string, desc: Env): Setting {
    Setting(JOB_TIMEOUT_SETTING,
      Or(Current(env, backend, JOB_TIMEOUT_SETTING),
         Or(Get(env, "QFW_IBM_JOB_TIMEOUT_SECONDS"),
             Or(Get(desc, "job_timeout_seconds"), Or(Get(desc, "job-timeout-seconds"), Some(DEFAULT_JOB_TIMEOUT))))))
  }

  /** Endpoint, key and CRN, then the IAM endpoint; the keys differ, so their order
      does not matter. */
  function IbmCore(env: Env, backend: string, key: Field -> string, cred: Env, desc: Env, a: Access): seq<Setting> {
    var replace := IdentifiesCaller(cred);
    [ ReplaceOrFill(env, backend, key(Endpoint), replace, a.baseUrl),
      ReplaceOrFill(env, backend, key(ApiKey), replace, a.token),
      ReplaceOrFill(env, backend, key(Crn), replace, ServiceCrn(env, cred, desc, a)),
      Setting(key(IamEndpoint), IamEndpointFor(env, backend, key(IamEndpoint), desc)) ]
  }

  function IbmRequired(kind: Kind, key: Field -> string): seq<string> {
    [key(Endpoint), key(IamEndpoint), key(ApiKey), key(Crn)] +
    if kind == QS then
      [key(S3Endpoint), key(S3Bucket), key(S3Region),
       key(AccessKeyId), key(SecretAccessKey), JOB_TIMEOUT_SETTING]
    else []
  }

  /** The access an IBM resource uses: resolved for the caller the credential
      names, and otherwise only when the endpoint or key is not already set, a
      failure then counting as no access. */
  function IbmAccess(env: Env, backend: string, key: Field -> string, cred: Env, config: Option<Env>): Option<Access> {
    if IdentifiesCaller(cred) then AccessOf(env, cred, config)
    else if Truthy(Current(env, backend, key(Endpoint))) && Truthy(Current(env, backend, key(ApiKey)))
         then Some(NO_ACCESS)
    else Some(if AccessOf(env, cred, config).Some? then AccessOf(env, cred, config).value else NO_ACCESS)
  }

  function IbmSettings(env: Env, kind: Kind, backend: string, cred: Env, desc: Env,
                       config: Option<Env>): Option<Resolved> {
    var key := Keys(kind);
    match IbmAccess(env, backend, key, cred, config)
    case None => None
    case Some(a) =>
      Some(Resolved(
        IbmCore(env, backend, key, cred, desc, a) +
        (if kind == QS then StorageSettings(env, backend, key, cred, desc, a) + [JobTimeout(env, backend, desc)]
            else []),
        IbmRequired(kind, key)))
  }

  // ------------------------------------------------------------- the environment sink

  function Written(env: Env, backend: string, s: Setting): Env {
    if s.value.Some? then env[Var(backend, s.key) := s.value.value] else env - {Var(backend, s.key)}
  }

  function Writer(backend: string): (Env, Setting) -> Env {
    (env: Env, s: Setting) => Written(env, backend, s)
  }

  /** The first `n` settings applied in order. */
  function Fold(f: (Env, Setting) -> Env, m: Env, settings: seq<Setting>, n: nat): Env
    requires n <= |settings|
  {
    if n == 0 then m else f(Fold(f, m, settings, n - 1), settings[n - 1])
  }

  function WriteAll(env: Env, backend: string, settings: seq<Setting>): Env {
    Fold(Writer(backend), env, settings, |settings|)
  }

  ghost predicate AllSettings(settings: seq<Setting>) {
    forall i | 0 <= i < |settings| :: IsSetting(settings[i].key)
  }

  ghost predicate AllKeys(keys: seq<string>) {
    forall i | 0 <= i < |keys| :: IsSetting(keys[i])
  }

  predicate IsVar(backend: string, name: string) {
    backend + "_QRMI_" <= name
  }

  /** The settings of a resource that the environment holds. */
  function SettingsIn(env: Env, backend: string): (r: set<string>)
    ensures forall key | key in r :: IsSetting(key) && Var(backend, key) in env
  {
    var r := set name | name in env && IsVar(backend, name) :: name[|backend| + 1..];
    assert forall key | key in r :: IsSetting(key) && Var(backend, key) in env by {
      forall key | key in r ensures IsSetting(key) && Var(backend, key) in env {
        var name :| name in env && IsVar(backend, name) && name[|backend| + 1..] == key;
        SameName(backend, name, key);
      }
    }
    r
  }

  /** What a resource reads back from the environment. */
  function View(env: Env, backend: string): Env {
    map key | key in SettingsIn(env, backend) :: env[Var(backend, key)]
  }

  function Put(m: Env, s: Setting): Env {
    if s.value.Some? then m[s.key := s.value.value] else m - {s.key}
  }

  function Putter(): (Env, Setting) -> Env {
    (m: Env, s: Setting) => Put(m, s)
  }

  function Viewer(backend: string): Env -> Env {
    (env: Env) => View(env, backend)
  }

  lemma SameName(backend: string, name: string, key: string)
    requires IsVar(backend, name) && name[|backend| + 1..] == key
    ensures name == Var(backend, key) && IsSetting(key)
  {
    assert name[..|backend| + 6] == backend + "_QRMI_";
    assert name[..|backend| + 1] == backend + "_";
    assert name == name[..|backend| + 1] + name[|backend| + 1..];
    assert key[..5] == name[|backend| + 1..|backend| + 6];
  }

  lemma SettingIsVar(backend: string, key: string)
    requires IsSetting(key)
    ensures IsVar(backend, Var(backend, key)) && Var(backend, key)[|backend| + 1..] == key
  {
    assert key == "QRMI_" + key[5..];
    assert Var(backend, key) == backend + "_QRMI_" + key[5..];
  }

  lemma ViewGets(env: Env, backend: string, key: string)
    requires IsSetting(key)
    ensures Get(View(env, backend), key) == Get(env, Var(backend, key))
  {
    SettingIsVar(backend, key);
    if Var(backend, key) in env {
      var name := Var(backend, key);
      assert IsVar(backend, name) && name[|backend| + 1..] in SettingsIn(env, backend);
    }
  }

  class Process {
    var env: Env

    constructor (env: Env)
      ensures this.env == env
    {
      this.env := env;
    }

    method WriteSettings(backend: string, settings: seq<Setting>)
      modifies this
      ensures env == WriteAll(old(env), backend, settings)
      ensures DistinctKeys(settings) ==>
                forall i | 0 <= i < |settings| :: Get(env, Var(backend, settings[i].key)) == settings[i].value
      ensures forall name | Spared(backend, settings, name) :: Get(env, name) == Get(old(env), name)
    {
      for i := 0 to |settings|
        invariant env == Fold(Writer(backend), old(env), settings, i)
      {
        var name := Var(backend, settings[i].key);
        match settings[i].value
        case None => env := env - {name};
        case Some(value) => env := env[name := value];
      }
      forall i | 0 <= i < |settings| && DistinctKeys(settings)
        ensures Get(env, Var(backend, settings[i].key)) == settings[i].value
      {
        FoldLeaves(old(env), backend, settings, |settings|, i);
      }
      forall name | Spared(backend, settings, name) ensures Get(env, name) == Get(old(env), name) {
        FoldSpares(old(env), backend, settings, |settings|, name);
      }
    }

    /** Writes the settings and reports whether every required one is then set. */
    method EnsureSettings(backend: string, r: Resolved) returns (ok: bool)
      modifies this
      ensures env == WriteAll(old(env), backend, r.settings)
      ensures ok <==> forall i | 0 <= i < |r.required| :: Truthy(Get(env, Var(backend, r.required[i])))
    {
      WriteSettings(backend, r.settings);
      ok := true;
      for i := 0 to |r.required|
        invariant ok <==> forall k | 0 <= k < i :: Truthy(Get(env, Var(backend, r.required[k])))
        invariant env == WriteAll(old(env), backend, r.settings)
      {
        ok := ok && Truthy(Get(env, Var(backend, r.required[i])));
      }
    }

    /** The map a resource is opened with, none when a required setting is
        missing: exactly what the environment sink would leave for the resource
        to read, under exactly the same condition. The environment is untouched. */
    method ResourceConfig(backend: string, r: Resolved) returns (config: Option<Env>)
      requires AllSettings(r.settings) && AllKeys(r.required)
      ensures
        var env' := WriteAll(env, backend, r.settings);
        && (config.Some? <==> forall i | 0 <= i < |r.required| :: Truthy(Get(env', Var(backend, r.required[i]))))
        && (config.Some? ==> config.value == View(env', backend))
    {
      var c := View(env, backend);
      ghost var base := c;
      for i := 0 to |r.settings|
        invariant c == Fold(Putter(), base, r.settings, i)
      {
        match r.settings[i].value
        case None => c := c - {r.settings[i].key};
        case Some(value) => c := c[r.settings[i].key := value];
      }
      var ok := Complete(c, r.required);
      SinksAgree(env, backend, r.settings);
      SinksMissTheSame(WriteAll(env, backend, r.settings), backend, r.required);
      config := if ok then Some(c) else None;
    }
  }

  predicate Complete(m: Env, required: seq<string>) {
    forall i | 0 <= i < |required| :: Truthy(Get(m, required[i]))
  }

  lemma SinksMissTheSame(env: Env, backend: string, required: seq<string>)
    requires AllKeys(required)
    ensures Complete(View(env, backend), required) <==>
              forall i | 0 <= i < |required| :: Truthy(Get(env, Var(backend, required[i])))
  {
    forall i | 0 <= i < |required| ensures Get(View(env, backend), required[i]) == Get(env, Var(backend, required[i])) {
      ViewGets(env, backend, required[i]);
    }
  }

  /** The map built beside the environment is what a resource would read back
      from the environment after the same settings were written to it. */
  lemma SinksAgree(env: Env, backend: string, settings: seq<Setting>)
    requires AllSettings(settings)
    ensures Fold(Putter(), View(env, backend), settings, |settings|) == View(WriteAll(env, backend, settings), backend)
  {
    forall m: Env, i | 0 <= i < |settings|
      ensures Commutes(Viewer(backend), Writer(backend), Putter(), m, settings[i])
    {
      ViewOfWritten(m, backend, settings[i]);
    }
    FoldCommutes(Viewer(backend), Writer(backend), Putter(), env, settings, |settings|);
  }

  ghost predicate Commutes(v: Env -> Env, g: (Env, Setting) -> Env, f: (Env, Setting) -> Env, m: Env, s: Setting) {
    v(g(m, s)) == f(v(m), s)
  }

  lemma {:induction false} FoldCommutes(v: Env -> Env, g: (Env, Setting) -> Env, f: (Env, Setting) -> Env, m: Env,
                                        settings: seq<Setting>, n: nat)
    requires n <= |settings| && forall e: Env, i | 0 <= i < |settings| :: Commutes(v, g, f, e, settings[i])
    ensures v(Fold(g, m, settings, n)) == Fold(f, v(m), settings, n)
    decreases n
  {
    if n > 0 {
      FoldCommutes(v, g, f, m, settings, n - 1);
      assert Commutes(v, g, f, Fold(g, m, settings, n - 1), settings[n - 1]);
    }
  }

  lemma VarsDiffer(backend: string, a: string, b: string)
    requires a != b
    ensures Var(backend, a) != Var(backend, b)
  {
    assert Var(backend, a)[|backend| + 1..] == a && Var(backend, b)[|backend| + 1..] == b;
  }

  /** Writing one variable is the same change to what the resource reads. */
  lemma ViewOfWritten(env: Env, backend: string, s: Setting)
    requires IsSetting(s.key)
    ensures View(Written(env, backend, s), backend) == Put(View(env, backend), s)
  {
    var a, b := View(Written(env, backend, s), backend), Put(View(env, backend), s);
    forall key ensures Get(a, key) == Get(b, key) {
      if IsSetting(key) {
        ViewGets(Written(env, backend, s), backend, key);
        ViewGets(env, backend, key);
        if key != s.key {
          VarsDiffer(backend, key, s.key);
        }
      } else {
        assert key !in a && key !in View(env, backend);
      }
    }
    SameMaps(a, b);
  }

  lemma SameMaps(a: Env, b: Env)
    requires forall key :: Get(a, key) == Get(b, key)
    ensures a == b
  {
    forall key ensures key in a <==> key in b {
      assert Get(a, key) == Get(b, key);
    }
    forall key | key in a ensures a[key] == b[key] {
      assert Get(a, key) == Get(b, key);
    }
  }

  // ------------------------------------------------------------------ independence


  ghost predicate NoQr(name: string) {
    forall i | 0 <= i < |name| - 1 :: name[i] == 'Q' ==> name[i + 1] != 'R'
  }

  lemma SiteNamesHaveNoQr()
    ensures NoQr("QFW_QC_URL") && NoQr("QFW_API_KEY") && NoQr("QFW_IBM_SERVICE_CRN")
    ensures NoQr("QFW_IBM_AWS_ACCESS_KEY_ID") && NoQr("QFW_IBM_AWS_SECRET_ACCESS_KEY")
  {
  }

  lemma NotAVariable(backend: string, key: string, name: string)
    requires IsSetting(key) && NoQr(name)
    ensures Var(backend, key) != name
  {
    var i := |backend| + 1;
    assert key[0] == key[..5][0] == 'Q' && key[1] == key[..5][1] == 'R';
    assert Var(backend, key)[i] == 'Q' && Var(backend, key)[i + 1] == 'R';
  }

  /** One earlier reservation's settings, written for some resource. */
  datatype Write = Write(backend: string, settings: seq<Setting>)

  function History(env: Env, writes: seq<Write>, n: nat): Env
    requires n <= |writes|
  {
    if n == 0 then env
    else WriteAll(History(env, writes, n - 1), writes[n - 1].backend, writes[n - 1].settings)
  }

  lemma {:induction false} WritesKeepSite(env: Env, backend: string, settings: seq<Setting>, n: nat, name: string)
    requires AllSettings(settings) && n <= |settings| && NoQr(name)
    ensures Get(Fold(Writer(backend), env, settings, n), name) == Get(env, name)
    decreases n
  {
    if n > 0 {
      WritesKeepSite(env, backend, settings, n - 1, name);
      NotAVariable(backend, settings[n - 1].key, name);
    }
  }

  lemma {:induction false} HistoryKeepsSite(env: Env, writes: seq<Write>, n: nat, name: string)
    requires n <= |writes| && NoQr(name) && forall k | 0 <= k < |writes| :: AllSettings(writes[k].settings)
    ensures Get(History(env, writes, n), name) == Get(env, name)
    decreases n
  {
    if n > 0 {
      HistoryKeepsSite(env, writes, n - 1, name);
      WritesKeepSite(History(env, writes, n - 1), writes[n - 1].backend, writes[n - 1].settings,
          |writes[n - 1].settings|, name);
    }
  }

  /** The settings that carry a caller's identity: endpoint, key and CRN, and for
      object storage the key pair. */
  function Identity(kind: Kind, r: Resolved): seq<Setting>
    requires |r.settings| >= if kind == QS then 6 else 3
  {
    r.settings[..3] + if kind == QS then r.settings[4..6] else []
  }

  /** For a credential that names the caller, the settings that carry their
      identity are those of a process no reservation ever wrote to, whatever
      earlier reservations wrote for any resource. */
  lemma IdentityIgnoresHistory(env: Env, writes: seq<Write>, kind: Kind, backend: string, cred: Env, desc: Env,
                               config: Option<Env>)
    requires IdentifiesCaller(cred) && forall k | 0 <= k < |writes| :: AllSettings(writes[k].settings)
    ensures
      var before := IbmSettings(env, kind, backend, cred, desc, config);
      var after := IbmSettings(History(env, writes, |writes|), kind, backend, cred, desc, config);
      before.Some? == after.Some? && (before.Some? ==> Identity(kind, before.value) == Identity(kind, after.value))
  {
    var env' := History(env, writes, |writes|);
    SiteNamesHaveNoQr();
    HistoryKeepsSite(env, writes, |writes|, "QFW_QC_URL");
    HistoryKeepsSite(env, writes, |writes|, "QFW_API_KEY");
    HistoryKeepsSite(env, writes, |writes|, "QFW_IBM_SERVICE_CRN");
    HistoryKeepsSite(env, writes, |writes|, "QFW_IBM_AWS_ACCESS_KEY_ID");
    HistoryKeepsSite(env, writes, |writes|, "QFW_IBM_AWS_SECRET_ACCESS_KEY");
    SameSiteSameIdentity(env, env', kind, backend, cred, desc, config);
  }

  lemma SameSiteSameIdentity(env: Env, env': Env, kind: Kind, backend: string, cred: Env, desc: Env,
                             config: Option<Env>)
    requires IdentifiesCaller(cred)
    requires Get(env, "QFW_QC_URL") == Get(env', "QFW_QC_URL") && Get(env, "QFW_API_KEY") == Get(env', "QFW_API_KEY")
    requires Get(env, "QFW_IBM_SERVICE_CRN") == Get(env', "QFW_IBM_SERVICE_CRN")
    requires Get(env, "QFW_IBM_AWS_ACCESS_KEY_ID") == Get(env', "QFW_IBM_AWS_ACCESS_KEY_ID")
    requires Get(env, "QFW_IBM_AWS_SECRET_ACCESS_KEY") == Get(env', "QFW_IBM_AWS_SECRET_ACCESS_KEY")
    ensures
      var before := IbmSettings(env, kind, backend, cred, desc, config);
      var after := IbmSettings(env', kind, backend, cred, desc, config);
      before.Some? == after.Some? && (before.Some? ==> Identity(kind, before.value) == Identity(kind, after.value))
  {
    var key := Keys(kind);
    assert IbmAccess(env, backend, key, cred, config) == IbmAccess(env', backend, key, cred, config);
    if IbmAccess(env, backend, key, cred, config).Some? {
      var a := IbmAccess(env, backend, key, cred, config).value;
      IdentityParts(env, kind, backend, cred, desc, config, a);
      IdentityParts(env', kind, backend, cred, desc, config, a);
      CoreIgnoresVariables(env, env', backend, key, cred, desc, a);
      StorageIgnoresVariables(env, env', backend, key, cred, desc, a);
    }
  }

  lemma IdentityParts(env: Env, kind: Kind, backend: string, cred: Env, desc: Env, config: Option<Env>, a: Access)
    requires IbmAccess(env, backend, Keys(kind), cred, config) == Some(a)
    ensures
      var r := IbmSettings(env, kind, backend, cred, desc, config);
      && r.Some? && |r.value.settings| >= (if kind == QS then 6 else 3)
      && Identity(kind, r.value) ==
         IbmCore(env, backend, Keys(kind), cred, desc, a)[..3] +
             if kind == QS then StorageSettings(env, backend, Keys(kind), cred, desc, a)[..2] else []
  {
    var core, storage := IbmCore(env, backend, Keys(kind), cred, desc, a),
        StorageSettings(env, backend, Keys(kind), cred, desc, a);
    var timeout := [JobTimeout(env, backend, desc)];
    assert |core| == 4 && |storage| == 6;
    if kind == QS {
      assert (core + (storage + timeout))[..3] == core[..3];
      assert (core + (storage + timeout))[4..6] == storage[..2];
    } else {
      assert core + [] == core;
    }
  }

  lemma CoreIgnoresVariables(env: Env, env': Env, backend: string, key: Field -> string, cred: Env, desc: Env,
                             a: Access)
    requires IdentifiesCaller(cred) && Get(env, "QFW_IBM_SERVICE_CRN") == Get(env', "QFW_IBM_SERVICE_CRN")
    ensures IbmCore(env, backend, key, cred, desc, a)[..3] == IbmCore(env', backend, key, cred, desc, a)[..3]
  {
    assert ServiceCrn(env, cred, desc, a) == ServiceCrn(env', cred, desc, a);
  }

  lemma StorageIgnoresVariables(env: Env, env': Env, backend: string, key: Field -> string, cred: Env, desc: Env,
                                a: Access)
    requires IdentifiesCaller(cred)
    requires Get(env, "QFW_IBM_AWS_ACCESS_KEY_ID") == Get(env', "QFW_IBM_AWS_ACCESS_KEY_ID")
    requires Get(env, "QFW_IBM_AWS_SECRET_ACCESS_KEY") == Get(env', "QFW_IBM_AWS_SECRET_ACCESS_KEY")
    ensures StorageSettings(env, backend, key, cred, desc, a)[..2]
              == StorageSettings(env', backend, key, cred, desc, a)[..2]
  {
  }

  // ------------------------------------------------------------------ resolved keys

  ghost predicate NamesSettings(key: Field -> string) {
    forall f :: IsSetting(key(f))
  }

  lemma KeysAreSettings(kind: Kind)
    ensures NamesSettings(Keys(kind))
  {
    assert Prefix(kind)[..5] == "QRMI_";
    forall f ensures IsSetting(Keys(kind)(f)) {
      PrefixedIsSetting(Prefix(kind), Suffix(f));
    }
  }

  lemma PrefixedIsSetting(prefix: string, suffix: string)
    requires IsSetting(prefix)
    ensures IsSetting(prefix + suffix)
  {
    assert (prefix + suffix)[..5] == prefix[..5];
  }

  /** Every setting the IBM resolver names is a resource's, so the two sinks agree
      on what it resolves. */
  lemma IbmNamesSettings(env: Env, kind: Kind, backend: string, cred: Env, desc: Env, config: Option<Env>)
    requires IbmSettings(env, kind, backend, cred, desc, config).Some?
    ensures
      var r := IbmSettings(env, kind, backend, cred, desc, config).value;
      AllSettings(r.settings) && AllKeys(r.required)
  {
    var key := Keys(kind);
    KeysAreSettings(kind);
    var a := IbmAccess(env, backend, key, cred, config).value;
    CoreNamesSettings(env, backend, key, cred, desc, a);
    StorageNamesSettings(env, backend, key, cred, desc, a);
    RequiredNamesSettings(kind, key);
  }

  lemma JobTimeoutIsSetting()
    ensures IsSetting(JOB_TIMEOUT_SETTING)
  {
  }

  lemma CoreNamesSettings(env: Env, backend: string, key: Field -> string, cred: Env, desc: Env, a: Access)
    requires NamesSettings(key)
    ensures AllSettings(IbmCore(env, backend, key, cred, desc, a))
  {
  }

  lemma StorageNamesSettings(env: Env, backend: string, key: Field -> string, cred: Env, desc: Env, a: Access)
    requires NamesSettings(key)
    ensures AllSettings(StorageSettings(env, backend, key, cred, desc, a) + [JobTimeout(env, backend, desc)])
  {
    JobTimeoutIsSetting();
  }

  lemma RequiredNamesSettings(kind: Kind, key: Field -> string)
    requires NamesSettings(key)
    ensures AllKeys(IbmRequired(kind, key))
  {
    JobTimeoutIsSetting();
  }

  lemma IqmNamesSettings(env: Env, backend: string, cred: Env, config: Option<Env>, general: Option<Env>)
    requires IqmSettings(env, backend, cred, config, general).Some?
    ensures
      var r := IqmSettings(env, backend, cred, config, general).value;
      AllSettings(r.settings) && AllKeys(r.required)
  {
    assert IsSetting(IQM_ENDPOINT) && IsSetting(IQM_TOKEN);
  }

  // ------------------------------------------------------- what the resource is handed

  ghost predicate DistinctKeys(settings: seq<Setting>) {
    forall i, j | 0 <= i < j < |settings| :: settings[i].key != settings[j].key
  }

  lemma WrittenGets(env: Env, backend: string, s: Setting, key: string)
    ensures Get(Written(env, backend, s), Var(backend, key)) ==
              if key == s.key then s.value else Get(env, Var(backend, key))
  {
    if key != s.key {
      VarsDiffer(backend, key, s.key);
    }
  }

  /** With distinct keys every setting is left at its resolved value, or cleared. */
  lemma {:induction false} FoldLeaves(env: Env, backend: string, settings: seq<Setting>, n: nat, i: nat)
    requires DistinctKeys(settings) && i < n <= |settings|
    ensures Get(Fold(Writer(backend), env, settings, n), Var(backend, settings[i].key)) == settings[i].value
    decreases n
  {
    WrittenGets(Fold(Writer(backend), env, settings, n - 1), backend, settings[n - 1], settings[i].key);
    if i < n - 1 {
      FoldLeaves(env, backend, settings, n - 1, i);
    }
  }

  /** The name is not the variable of any of these settings. */
  ghost predicate Spared(backend: string, settings: seq<Setting>, name: string) {
    forall i | 0 <= i < |settings| :: name != Var(backend, settings[i].key)
  }

  lemma {:induction false} FoldSpares(env: Env, backend: string, settings: seq<Setting>, n: nat, name: string)
    requires n <= |settings| && Spared(backend, settings, name)
    ensures Get(Fold(Writer(backend), env, settings, n), name) == Get(env, name)
    decreases n
  {
    if n > 0 {
      FoldSpares(env, backend, settings, n - 1, name);
    }
  }

  /** What the resource reads of a resolved setting is its value. */
  lemma ResourceReads(env: Env, backend: string, settings: seq<Setting>, i: nat)
    requires DistinctKeys(settings) && AllSettings(settings) && i < |settings|
    ensures Get(View(WriteAll(env, backend, settings), backend), settings[i].key) == settings[i].value
  {
    ViewGets(WriteAll(env, backend, settings), backend, settings[i].key);
    FoldLeaves(env, backend, settings, |settings|, i);
  }

  lemma SuffixLength(f: Field)
    ensures |Suffix(f)| ==
      match f { case Endpoint => 9 case IamEndpoint => 13 case ApiKey => 11 case Crn => 12 case S3Endpoint => 12
                case S3EndpointForQsapi => 22 case S3Bucket => 10 case S3Region => 10
                case AccessKeyId => 18 case SecretAccessKey => 22 }
  {
  }

  lemma SuffixesDiffer(f: Field, g: Field)
    requires f != g
    ensures Suffix(f) != Suffix(g)
  {
    SuffixLength(f);
    SuffixLength(g);
    assert Suffix(Crn)[2] == 'E' && Suffix(S3Endpoint)[2] == '3';
    assert Suffix(S3Bucket)[4] == 'B' && Suffix(S3Region)[4] == 'R';
    assert Suffix(S3EndpointForQsapi)[1] == 'S' && Suffix(SecretAccessKey)[1] == 'A';
  }

  lemma KeysDiffer(kind: Kind, f: Field, g: Field)
    requires f != g
    ensures Keys(kind)(f) != Keys(kind)(g)
  {
    SuffixesDiffer(f, g);
    SameTail(Prefix(kind), Suffix(f), Suffix(g));
  }

  lemma SameTail(prefix: string, a: string, b: string)
    requires a != b
    ensures prefix + a != prefix + b
  {
    assert (prefix + a)[|prefix|..] == a && (prefix + b)[|prefix|..] == b;
  }

  lemma JobTimeoutDiffers(kind: Kind, f: Field)
    ensures Keys(kind)(f) != JOB_TIMEOUT_SETTING
  {
    assert (Prefix(kind) + Suffix(f))[5] == Prefix(kind)[5] == 'I';
    assert JOB_TIMEOUT_SETTING[5] == 'J';
  }

  const CORE_FIELDS := [Endpoint, ApiKey, Crn, IamEndpoint]
  const STORAGE_FIELDS := [AccessKeyId, SecretAccessKey, S3Endpoint, S3EndpointForQsapi, S3Bucket, S3Region]

  /** The settings in order, but for the job timeout at the end. */
  function FieldsOf(kind: Kind): seq<Field> {
    CORE_FIELDS + if kind == QS then STORAGE_FIELDS else []
  }

  lemma SettingsAreFields(env: Env, kind: Kind, backend: string, cred: Env, desc: Env, config: Option<Env>)
    requires IbmSettings(env, kind, backend, cred, desc, config).Some?
    ensures
      var settings, fields := IbmSettings(env, kind, backend, cred, desc, config).value.settings, FieldsOf(kind);
      && |settings| == |fields| + (if kind == QS then 1 else 0)
      && (forall i | 0 <= i < |fields| :: settings[i].key == Keys(kind)(fields[i]))
      && (kind == QS ==> settings[|fields|].key == JOB_TIMEOUT_SETTING)
  {
    var key := Keys(kind);
    var a := IbmAccess(env, backend, key, cred, config).value;
    CoreFields(env, backend, key, cred, desc, a);
    StorageFields(env, backend, key, cred, desc, a);
    JoinFields(kind, key, IbmCore(env, backend, key, cred, desc, a), StorageSettings(env, backend, key, cred, desc, a),
        JobTimeout(env, backend, desc));
  }

  ghost predicate Names(settings: seq<Setting>, key: Field -> string, fields: seq<Field>) {
    |settings| == |fields| && forall i | 0 <= i < |fields| :: settings[i].key == key(fields[i])
  }

  lemma JoinFields(kind: Kind, key: Field -> string, core: seq<Setting>, storage: seq<Setting>, timeout: Setting)
    requires Names(core, key, CORE_FIELDS) && Names(storage, key, STORAGE_FIELDS)
    ensures
      var settings, fields := core + (if kind == QS then storage + [timeout] else []), FieldsOf(kind);
      && |settings| == |fields| + (if kind == QS then 1 else 0)
      && (forall i | 0 <= i < |fields| :: settings[i].key == key(fields[i]))
      && (kind == QS ==> settings[|fields|] == timeout)
  {
    var settings, fields := core + (if kind == QS then storage + [timeout] else []), FieldsOf(kind);
    forall i | 0 <= i < |fields| ensures settings[i].key == key(fields[i]) {
      if i < |core| {
        assert settings[i] == core[i] && fields[i] == CORE_FIELDS[i];
      } else {
        assert settings[i] == storage[i - |core|] && fields[i] == STORAGE_FIELDS[i - |core|];
      }
    }
  }

  lemma CoreFields(env: Env, backend: string, key: Field -> string, cred: Env, desc: Env, a: Access)
    ensures Names(IbmCore(env, backend, key, cred, desc, a), key, CORE_FIELDS)
  {
  }

  lemma StorageFields(env: Env, backend: string, key: Field -> string, cred: Env, desc: Env, a: Access)
    ensures Names(StorageSettings(env, backend, key, cred, desc, a), key, STORAGE_FIELDS)
  {
  }

  lemma IbmKeysDiffer(env: Env, kind: Kind, backend: string, cred: Env, desc: Env, config: Option<Env>)
    requires IbmSettings(env, kind, backend, cred, desc, config).Some?
    ensures DistinctKeys(IbmSettings(env, kind, backend, cred, desc, config).value.settings)
  {
    SettingsAreFields(env, kind, backend, cred, desc, config);
    FieldsDiffer(IbmSettings(env, kind, backend, cred, desc, config).value.settings, kind);
  }

  lemma DistinctFields(kind: Kind, i: nat, j: nat)
    requires i < j < |FieldsOf(kind)|
    ensures FieldsOf(kind)[i] != FieldsOf(kind)[j]
  {
  }

  lemma FieldsDiffer(settings: seq<Setting>, kind: Kind)
    requires |settings| == |FieldsOf(kind)| + (if kind == QS then 1 else 0)
    requires forall i | 0 <= i < |FieldsOf(kind)| :: settings[i].key == Keys(kind)(FieldsOf(kind)[i])
    requires kind == QS ==> settings[|FieldsOf(kind)|].key == JOB_TIMEOUT_SETTING
    ensures DistinctKeys(settings)
  {
    var fields := FieldsOf(kind);
    forall i, j | 0 <= i < j < |settings| ensures settings[i].key != settings[j].key {
      if j < |fields| {
        DistinctFields(kind, i, j);
        KeysDiffer(kind, fields[i], fields[j]);
      } else {
        JobTimeoutDiffers(kind, fields[i]);
      }
    }
  }

  /** Where the settings that carry a caller's identity are in the list. */
  predicate CarriesIdentity(kind: Kind, i: nat) {
    i < 3 || (kind == QS && 4 <= i < 6)
  }

  /** What an IBM resource is handed under a key, through either sink. */
  ghost function Handed(env: Env, kind: Kind, backend: string, cred: Env, desc: Env, config: Option<Env>,
                        key: string): Option<string>
    requires IbmSettings(env, kind, backend, cred, desc, config).Some?
  {
    Get(View(WriteAll(env, backend, IbmSettings(env, kind, backend, cred, desc, config).value.settings), backend), key)
  }

  lemma HandedIsResolved(env: Env, kind: Kind, backend: string, cred: Env, desc: Env, config: Option<Env>, i: nat)
    requires IbmSettings(env, kind, backend, cred, desc, config).Some?
    requires i < |IbmSettings(env, kind, backend, cred, desc, config).value.settings|
    ensures
      var s := IbmSettings(env, kind, backend, cred, desc, config).value.settings[i];
      Handed(env, kind, backend, cred, desc, config, s.key) == s.value
  {
    IbmKeysDiffer(env, kind, backend, cred, desc, config);
    IbmNamesSettings(env, kind, backend, cred, desc, config);
    ResourceReads(env, backend, IbmSettings(env, kind, backend, cred, desc, config).value.settings, i);
  }

  /** For a credential that names the caller, what the resource is handed as
      endpoint, key, CRN and storage key pair is what a process no reservation ever
      wrote to would hand it, whatever earlier reservations wrote. */
  lemma HandedIdentityIgnoresHistory(env: Env, writes: seq<Write>, kind: Kind, backend: string, cred: Env, desc: Env,
                                     config: Option<Env>, i: nat)
    requires IdentifiesCaller(cred) && forall k | 0 <= k < |writes| :: AllSettings(writes[k].settings)
    requires IbmSettings(env, kind, backend, cred, desc, config).Some? && i < |FieldsOf(kind)|
    requires CarriesIdentity(kind, i)
    ensures
      var now := History(env, writes, |writes|);
      var key := Keys(kind)(FieldsOf(kind)[i]);
      && IbmSettings(now, kind, backend, cred, desc, config).Some?
      && Handed(now, kind, backend, cred, desc, config, key) == Handed(env, kind, backend, cred, desc, config, key)
  {
    var now := History(env, writes, |writes|);
    IdentityIgnoresHistory(env, writes, kind, backend, cred, desc, config);
    SettingsAreFields(env, kind, backend, cred, desc, config);
    SettingsAreFields(now, kind, backend, cred, desc, config);
    HandedIsResolved(env, kind, backend, cred, desc, config, i);
    HandedIsResolved(now, kind, backend, cred, desc, config, i);
    IdentityAt(kind, IbmSettings(env, kind, backend, cred, desc, config).value,
        IbmSettings(now, kind, backend, cred, desc, config).value, i);
  }

  lemma IdentityAt(kind: Kind, a: Resolved, b: Resolved, i: nat)
    requires |a.settings| >= (if kind == QS then 6 else 3) && |b.settings| >= (if kind == QS then 6 else 3)
    requires Identity(kind, a) == Identity(kind, b) && CarriesIdentity(kind, i)
    ensures a.settings[i] == b.settings[i]
  {
    var k := if i < 3 then i else i - 1;
    assert Identity(kind, a)[k] == a.settings[i] && Identity(kind, b)[k] == b.settings[i];
  }
}
