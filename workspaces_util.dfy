/**
  Data-source configuration checks and the fence cleaning applied to LLM
  replies (`workspaces.util.ts`). Configurations arrive as untyped JSON
  values; `Number()` is the `toNumber` built-in.
 */
module WorkspacesUtil {
  import opened Wrappers
  import opened Text
  import opened Js

  datatype ConfigKind = Postgres | Mysql

  /** How the messages name each kind. */
  function Label(kind: ConfigKind): string {
    if kind == Postgres then "Postgres" else "MySQL"
  }

  /** `obj.k` on a value that passed `x && typeof x === 'object'`; arrays and dates have no such member. */
  function Prop(x: JsValue, k: string): JsValue {
    if x.Obj? then Get(x.members, k) else Undefined
  }

  /** `!x || typeof x !== 'object'` fails. */
  predicate IsObjectLike(x: JsValue) {
    Truthy(x) && IsTypeofObject(x)
  }

  /** host, database, user and password are all strings. */
  predicate HasStringFields(x: JsValue) {
    Prop(x, "host").Str? && Prop(x, "database").Str? && Prop(x, "user").Str? && Prop(x, "password").Str?
  }

  /** `typeof portRaw === 'number' ? portRaw : Number(portRaw)` */
  function PortNumber(portRaw: JsValue, b: Builtins): Number {
    if portRaw.Num? then portRaw.n else b.toNumber(portRaw)
  }

  /** `typeof sslVal === 'boolean' ? sslVal : sslVal === 'true'` */
  function SslFlag(sslVal: JsValue): bool {
    if sslVal.Bool? then sslVal.b else sslVal == Str("true")
  }

  /**
    A normalised configuration: `PostgresConfig` when `ssl` is present,
    `MysqlConfig` when it is not.
   */
  datatype Config = Config(
    host: string, port: Number, database: string, user: string, password: string, ssl: Option<bool>)

  /**
    `normalizePostgresConfig` and `normalizeMysqlConfig`: a fresh object with
    exactly host, port, database, user, password, and ssl for Postgres.
   */
  function NormalizeConfig(x: JsValue, kind: ConfigKind, b: Builtins): (r: Result<Config, string>)
    ensures r.Success? <==> IsObjectLike(x) && PortNumber(Prop(x, "port"), b).IsFinite() && HasStringFields(x)
    ensures !IsObjectLike(x) ==> r == Failure("Invalid " + Label(kind) + " config payload")
    ensures IsObjectLike(x) && !PortNumber(Prop(x, "port"), b).IsFinite() ==> r == Failure("Invalid " + Label(kind) + " port")
    ensures IsObjectLike(x) && PortNumber(Prop(x, "port"), b).IsFinite() && !HasStringFields(x) ==>
      r == Failure("Invalid " + Label(kind) + " config fields")
    ensures r.Success? ==>
      && Str(r.value.host) == Prop(x, "host") && Str(r.value.database) == Prop(x, "database")
      && Str(r.value.user) == Prop(x, "user") && Str(r.value.password) == Prop(x, "password")
      && r.value.port == PortNumber(Prop(x, "port"), b) && r.value.port.IsFinite()
      && r.value.ssl == (if kind == Postgres then Some(SslFlag(Prop(x, "ssl"))) else None)
  {
    if !IsObjectLike(x) then Failure("Invalid " + Label(kind) + " config payload")
    else
      var portNum := PortNumber(Prop(x, "port"), b);
      if !portNum.IsFinite() then Failure("Invalid " + Label(kind) + " port")
      else
        var host := Prop(x, "host");
        var database := Prop(x, "database");
        var user := Prop(x, "user");
        var password := Prop(x, "password");
        if !host.Str? || !database.Str? || !user.Str? || !password.Str? then
          Failure("Invalid " + Label(kind) + " config fields")
        else
          var ssl := if kind == Postgres then Some(SslFlag(Prop(x, "ssl"))) else None;
          Success(Config(host.s, portNum, database.s, user.s, password.s, ssl))
  }

  /** `normalizePostgresConfig`: the `ssl` flag is read. */
  function NormalizePostgresConfig(x: JsValue, b: Builtins): (r: Result<Config, string>)
    ensures r.Success? ==> r.value.ssl.Some?
  {
    NormalizeConfig(x, Postgres, b)
  }

  /**
    `normalizeMysqlConfig`: no `ssl` flag, and it
    accepts exactly the payloads the Postgres normaliser accepts, with the
    same five fields.
   */
  function NormalizeMysqlConfig(x: JsValue, b: Builtins): (r: Result<Config, string>)
    ensures r.Success? ==> r.value.ssl.None?
    ensures r.Success? <==> NormalizePostgresConfig(x, b).Success?
    ensures r.Success? ==> r.value == NormalizePostgresConfig(x, b).value.(ssl := None)
  {
    NormalizeConfig(x, Mysql, b)
  }

  /**
    `asPostgresConfigOrThrow` and `asMysqlConfigOrThrow`: the input itself,
    once its four string fields are strings and `typeof port === 'number'`
    (NaN included).
   */
  function AsConfigOrThrow(x: JsValue, kind: ConfigKind): (r: Result<JsValue, string>)
    ensures r.Success? <==> IsObjectLike(x) && HasStringFields(x) && Prop(x, "port").Num?
    ensures r.Success? ==> r.value == x
    ensures r.Failure? ==> r.error == "Invalid " + Label(kind) + " config"
  {
    if IsObjectLike(x) && Prop(x, "host").Str? && Prop(x, "port").Num? && Prop(x, "database").Str?
      && Prop(x, "user").Str? && Prop(x, "password").Str?
    then Success(x)
    else Failure("Invalid " + Label(kind) + " config")
  }

  function AsPostgresConfigOrThrow(x: JsValue): (r: Result<JsValue, string>)
    ensures r.Success? ==> r.value == x
    ensures r.Failure? ==> r.error == "Invalid Postgres config"
  {
    AsConfigOrThrow(x, Postgres)
  }

  /** `asMysqlConfigOrThrow`: the same test as the Postgres one, with its own message. */
  function AsMysqlConfigOrThrow(x: JsValue): (r: Result<JsValue, string>)
    ensures r.Success? <==> AsPostgresConfigOrThrow(x).Success?
    ensures r.Success? ==> r.value == x
    ensures r.Failure? ==> r.error == "Invalid MySQL config"
  {
    AsConfigOrThrow(x, Mysql)
  }

  /**
    For a numeric port the two checks differ only in finiteness: the read
    check lets NaN and the infinities through, the normaliser does not.
   */
  lemma NormalizeVersusReadCheck(x: JsValue, kind: ConfigKind, b: Builtins)
    requires Prop(x, "port").Num?
    ensures NormalizeConfig(x, kind, b).Success? <==> AsConfigOrThrow(x, kind).Success? && Prop(x, "port").n.IsFinite()
  {
  }

  /** A numeric NaN port passes the ingestion check but not the normaliser. */
  lemma NaNPortOnlyPassesTheReadCheck(x: JsValue, kind: ConfigKind, b: Builtins)
    requires IsObjectLike(x) && HasStringFields(x) && Prop(x, "port") == Num(NaN)
    ensures AsConfigOrThrow(x, kind).Success?
    ensures NormalizeConfig(x, kind, b) == Failure("Invalid " + Label(kind) + " port")
  {
  }

  /** A port given as text is converted by `Number()`; the read check rejects it. */
  lemma TextPortIsConverted(x: JsValue, kind: ConfigKind, b: Builtins, text: string, port: Number)
    requires IsObjectLike(x) && HasStringFields(x) && Prop(x, "port") == Str(text)
    requires b.toNumber(Str(text)) == port && port.IsFinite()
    ensures NormalizeConfig(x, kind, b).Success? && NormalizeConfig(x, kind, b).value.port == port
    ensures AsConfigOrThrow(x, kind).Failure?
  {
  }

  // ---------------------------------------------------------------------
  // cleanMarkdownJson
  // ---------------------------------------------------------------------

  const Fence: string := "```"

  /** `.replace(/^```(json)?/i, '')` */
  function DropLeadingFence(s: string): (r: string)
    ensures StartsWith(s, Fence) ==> |r| < |s|
    ensures !StartsWith(s, Fence) ==> r == s
    ensures (StartsWith(s, Fence) && |s| >= 7 && LowerChar(s[3]) == 'j' && LowerChar(s[4]) == 's' &&
             LowerChar(s[5]) == 'o' && LowerChar(s[6]) == 'n') ==> r == s[7..]
    ensures (StartsWith(s, Fence) && (|s| < 7 || LowerChar(s[3]) != 'j' || LowerChar(s[4]) != 's' ||
             LowerChar(s[5]) != 'o' || LowerChar(s[6]) != 'n')) ==> r == s[3..]
  {
    if !StartsWith(s, Fence) then s
    else if |s| >= 7 && Lower(s[3..7]) == "json" then s[7..]
    else s[3..]
  }

  /** `.replace(/```$/, '')` */
  function DropTrailingFence(s: string): (r: string)
    ensures EndsWith(s, Fence) ==> r == s[..|s| - 3]
    ensures !EndsWith(s, Fence) ==> r == s
  {
    if EndsWith(s, Fence) then s[..|s| - 3] else s
  }

  /** `cleanMarkdownJson` */
  function CleanMarkdownJson(txt: string): (r: string)
    ensures r == [] || (!IsSpace(r[0]) && !IsSpace(r[|r| - 1]))
  {
    TrimShape(DropTrailingFence(DropLeadingFence(Trim(txt))));
    Trim(DropTrailingFence(DropLeadingFence(Trim(txt))))
  }

  /** A reply without fences is only trimmed. */
  lemma CleanUnfenced(txt: string)
    requires !StartsWith(Trim(txt), Fence) && !EndsWith(Trim(txt), Fence)
    ensures CleanMarkdownJson(txt) == Trim(Trim(txt))
  {
  }

  /** Appending a character after a non-blank string does not change where trimming starts. */
  lemma {:induction false} TrimStartAppend(body: string, c: char)
    requires !IsBlank(body)
    ensures TrimStart(body + [c]) == TrimStart(body) + [c]
    decreases |body|
  {
    TrimShape(body);
    var k :| 0 <= k < |body| && !IsSpace(body[k]);
    if IsSpace(body[0]) {
      assert (body + [c])[1..] == body[1..] + [c];
      assert body[1..][k - 1] == body[k];
      TrimShape(body[1..]);
      TrimStartAppend(body[1..], c);
    }
  }

  /** A string made of whitespace trims to nothing from the start. */
  lemma {:induction false} TrimStartBlank(s: string)
    requires forall k :: 0 <= k < |s| ==> IsSpace(s[k])
    ensures TrimStart(s) == []
  {
    if |s| > 0 {
      TrimStartBlank(s[1..]);
    }
  }

  lemma TrimSurrounded(body: string)
    ensures Trim("\n" + body + "\n") == Trim(body)
  {
    var s := "\n" + body + "\n";
    assert |s| > 0 && IsSpace(s[0]) && s[1..] == body + "\n";
    assert TrimStart(s) == TrimStart(s[1..]);
    TrimShape(body);
    if IsBlank(body) {
      TrimStartBlank(body + "\n");
      assert Trim(s) == TrimEnd([]);
    } else {
      TrimStartAppend(body, '\n');
      var t := TrimStart(body);
      var u := t + "\n";
      assert |u| > 0 && IsSpace(u[|u| - 1]) && u[..|u| - 1] == t;
      assert TrimEnd(u) == TrimEnd(u[..|u| - 1]);
    }
  }

  /** `json` in any letter case, as the `i` flag matches it. */
  predicate IsJsonTag(tag: string) {
    |tag| == 4 && LowerChar(tag[0]) == 'j' && LowerChar(tag[1]) == 's' && LowerChar(tag[2]) == 'o' && LowerChar(tag[3]) == 'n'
  }

  /** The opening fence goes, with a `json` tag in any letter case, and the line break after it stays. */
  lemma DropFenceTag(tag: string, rest: string)
    requires tag == [] || IsJsonTag(tag)
    requires rest != [] && rest[0] == '\n'
    ensures DropLeadingFence(Fence + tag + rest) == rest
  {
    var s := Fence + tag + rest;
    assert s[..3] == Fence;
    if tag == [] {
      assert s[3] == '\n';
      assert s[3..] == rest;
    } else {
      assert s[3..7] == tag;
      assert s[7..] == rest;
    }
  }

  /**
    A reply wrapped as a fenced block, bare or tagged `json` in any letter
    case, gives back its trimmed body.
   */
  lemma CleanFencedJson(tag: string, body: string)
    requires tag == [] || IsJsonTag(tag)
    ensures CleanMarkdownJson("```" + tag + "\n" + body + "\n```") == Trim(body)
  {
    var s := "```" + tag + "\n" + body + "\n```";
    assert Trim(s) == s by {
      assert !IsSpace(s[0]);
      assert TrimStart(s) == s;
      assert s[|s| - 1] == '`';
    }
    var e := "\n" + body + "\n";
    assert s == Fence + tag + (e + Fence);
    DropFenceTag(tag, e + Fence);
    assert (e + Fence)[..|e|] == e;
    TrimSurrounded(body);
  }

  /** The usual reply: a block fenced with a lower-case `json` tag. */
  lemma CleanLowerCaseFence(reply: string, body: string)
    requires reply == "```json\n" + body + "\n```"
    ensures CleanMarkdownJson(reply) == Trim(body)
  {
    assert reply == "```" + "json" + "\n" + body + "\n```";
    CleanFencedJson("json", body);
  }

  /** A bare fence is removed like a tagged one. */
  lemma CleanBareFence(reply: string, body: string)
    requires reply == "```\n" + body + "\n```"
    ensures CleanMarkdownJson(reply) == Trim(body)
  {
    assert reply == "```" + "" + "\n" + body + "\n```";
    CleanFencedJson("", body);
  }

  /** The tag is matched without regard to letter case. */
  lemma CleanUpperCaseFence(reply: string, body: string)
    requires reply == "```JSON\n" + body + "\n```"
    ensures CleanMarkdownJson(reply) == Trim(body)
  {
    assert reply == "```" + "JSON" + "\n" + body + "\n```";
    CleanFencedJson("JSON", body);
  }
}
