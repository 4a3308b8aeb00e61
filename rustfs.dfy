/** utils/rustfs.js: the object-storage settings derived once from the
    environment (SSL, port, public base URL), the URL `uploadFile` hands back
    for a stored object, and the object key `deleteFile` recovers from such a
    URL. The storage client calls themselves (`putObject`, `removeObject`) are
    not modelled. */
module Rustfs {
  import opened Wrappers
  import opened JsText

  /** `process.env`: every value is a string; a missing name is `undefined`. */
  type Env = map<string, string>

  function EnvVar(env: Env, name: string): Option<string> {
    if name in env then Some(env[name]) else None
  }

  /** An environment value in a condition: `undefined` and "" are false. */
  predicate Truthy(v: Option<string>) {
    v.Some? && v.value != ""
  }

  /** An environment value inside a template literal: `undefined` is spelled out. */
  function Interpolated(v: Option<string>): string {
    v.GetOr("undefined")
  }

  /** `useSSL`: on exactly when RUSTFS_USE_SSL is the text "true". */
  function UseSsl(env: Env): (r: bool)
    ensures r <==> EnvVar(env, "RUSTFS_USE_SSL") == Some("true")
  {
    EnvVar(env, "RUSTFS_USE_SSL") == Some("true")
  }

  /** `port`: RUSTFS_PORT parsed in radix 10 when it is set and not empty,
      else 443 with SSL and 80 without. `None` is `NaN`, which a set value
      without leading digits gives. */
  function Port(env: Env): (r: Option<int>)
    ensures !Truthy(EnvVar(env, "RUSTFS_PORT")) ==> r == Some(if UseSsl(env) then 443 else 80)
    ensures Truthy(EnvVar(env, "RUSTFS_PORT")) ==> r == ParseInt(env["RUSTFS_PORT"], Radix10)
  {
    var setting := EnvVar(env, "RUSTFS_PORT");
    if Truthy(setting) then ParseInt(setting.value, Radix10)
    else Some(if UseSsl(env) then 443 else 80)
  }

  /** `${port}`. */
  function PortText(port: Option<int>): string {
    match port
    case None => "NaN"
    case Some(n) => DecimalString(n)
  }

  /** `portString`: nothing for the two well-known ports, else ":" and the port. */
  function PortSuffix(port: Option<int>): (r: string)
    ensures r == "" <==> port == Some(80) || port == Some(443)
    ensures r != "" ==> r == ":" + PortText(port)
  {
    if port == Some(80) || port == Some(443) then "" else ":" + PortText(port)
  }

  function Protocol(useSsl: bool): string {
    if useSsl then "https" else "http"
  }

  /** `BASE_URL`: the public domain and bucket when RUSTFS_PUBLIC_DOMAIN is
      set, else the protocol, endpoint, port suffix and bucket. */
  function BaseUrl(env: Env): (r: string)
    ensures Truthy(EnvVar(env, "RUSTFS_PUBLIC_DOMAIN")) ==>
      r == env["RUSTFS_PUBLIC_DOMAIN"] + "/" + Interpolated(EnvVar(env, "RUSTFS_BUCKET"))
    ensures !Truthy(EnvVar(env, "RUSTFS_PUBLIC_DOMAIN")) ==>
      r == Protocol(UseSsl(env)) + "://" + Interpolated(EnvVar(env, "RUSTFS_ENDPOINT"))
           + PortSuffix(Port(env)) + "/" + Interpolated(EnvVar(env, "RUSTFS_BUCKET"))
  {
    var publicDomain := EnvVar(env, "RUSTFS_PUBLIC_DOMAIN");
    var bucketName := Interpolated(EnvVar(env, "RUSTFS_BUCKET"));
    if Truthy(publicDomain) then publicDomain.value + "/" + bucketName
    else
      var protocol := Protocol(UseSsl(env));
      var portString := PortSuffix(Port(env));
      protocol + "://" + Interpolated(EnvVar(env, "RUSTFS_ENDPOINT")) + portString + "/" + bucketName
  }

  /** The URL `uploadFile(fileName, ...)` returns once the object is stored. */
  function UploadUrl(env: Env, fileName: string): (r: string)
    ensures |r| == |BaseUrl(env)| + 1 + |fileName|
    ensures r[..|BaseUrl(env)| + 1] == BaseUrl(env) + "/" && r[|BaseUrl(env)| + 1..] == fileName
  {
    BaseUrl(env) + "/" + fileName
  }

  /** The object key `deleteFile(fileName)` removes: the first occurrence of
      BASE_URL followed by "/" is cut out of its argument. */
  function DeleteKey(env: Env, fileName: string): (r: string)
    ensures (forall i: nat :: !MatchAt(fileName, BaseUrl(env) + "/", i)) ==> r == fileName
    ensures r == fileName || |r| == |fileName| - |BaseUrl(env)| - 1
  {
    ReplaceFirst(fileName, BaseUrl(env) + "/", "")
  }

  /** Deleting by the URL an upload returned removes the object that was
      uploaded, whatever the file name contains. */
  lemma DeleteKeyOfUploadUrl(env: Env, fileName: string)
    ensures DeleteKey(env, UploadUrl(env, fileName)) == fileName
  {
    var prefix := BaseUrl(env) + "/";
    assert UploadUrl(env, fileName) == prefix + fileName;
    ReplacePrefixWithEmpty(prefix, fileName);
  }

  /** A bare object key, which does not contain BASE_URL + "/", is used as it is. */
  lemma DeleteKeyOfBareKey(env: Env, key: string)
    requires forall i: nat :: !MatchAt(key, BaseUrl(env) + "/", i)
    ensures DeleteKey(env, key) == key
  {
  }

  /** Without RUSTFS_PORT the port follows SSL, so the base URL carries no
      port suffix; an explicit decimal port other than 80 and 443 appears in it. */
  lemma PortSuffixFromEnv(env: Env, n: int)
    ensures !Truthy(EnvVar(env, "RUSTFS_PORT")) ==> PortSuffix(Port(env)) == ""
    ensures EnvVar(env, "RUSTFS_PORT") == Some(DecimalString(n)) && n != 80 && n != 443 ==>
      PortSuffix(Port(env)) == ":" + DecimalString(n)
  {
    if EnvVar(env, "RUSTFS_PORT") == Some(DecimalString(n)) {
      ParseIntOfDecimalString(n, "", Radix10);
      assert DecimalString(n) + "" == DecimalString(n);
      assert Port(env) == Some(n);
    }
  }

  /** Without a public domain, the base URL is an https URL exactly when SSL is on. */
  lemma BaseUrlScheme(env: Env)
    requires !Truthy(EnvVar(env, "RUSTFS_PUBLIC_DOMAIN"))
    ensures |BaseUrl(env)| >= 8 && (BaseUrl(env)[..8] == "https://" <==> UseSsl(env))
  {
    SchemePrefix(UseSsl(env), Interpolated(EnvVar(env, "RUSTFS_ENDPOINT")), PortSuffix(Port(env)),
                 Interpolated(EnvVar(env, "RUSTFS_BUCKET")));
  }

  lemma SchemePrefix(useSsl: bool, endPoint: string, portString: string, bucketName: string)
    ensures |Protocol(useSsl) + "://" + endPoint + portString + "/" + bucketName| >= 8
    ensures (Protocol(useSsl) + "://" + endPoint + portString + "/" + bucketName)[..8] == "https://"
            <==> useSsl
  {
    var r := Protocol(useSsl) + "://" + endPoint + portString + "/" + bucketName;
    if useSsl {
      assert r[..8] == "https://";
    } else {
      assert r[4] == ':';
      assert r[..8][4] != "https://"[4];
    }
  }
}
