/** The application manifest, its env references, and validation. */
module Manifest {
  import opened Common

  datatype Expose = Expose(port: int, host: string, aliases: seq<string>, corsDisabled: bool)

  datatype Healthcheck = Healthcheck(kind: string, path: string, test: seq<string>, interval: string, timeout: string, retries: int)

  datatype UpdatePolicy = UpdatePolicy(parallelism: int, delay: string, order: string)

  datatype Service = Service(
    image: string, replicas: Option<int>, runOnce: bool, skipFilelog: bool, placement: string,
    command: seq<string>, entrypoint: seq<string>, env: map<string, string>,
    volumes: seq<string>, secrets: seq<string>,
    expose: Option<Expose>, healthcheck: Option<Healthcheck>, update: Option<UpdatePolicy>)

  datatype App = App(
    name: string, env: string, domain: string, version: string,
    registry: string, repoUrl: string, envFile: string,
    secrets: seq<string>, services: map<string, Service>)

  // ---------------------------------------------------------------------------
  // Text
  // ---------------------------------------------------------------------------

  function IndexOf(s: string, c: char): (i: nat)
    ensures i <= |s| && c !in s[..i]
    ensures i < |s| ==> s[i] == c
    ensures i == |s| <==> c !in s
  {
    if s == "" || s[0] == c then 0
    else
      var rest := IndexOf(s[1..], c);
      assert s[..1 + rest] == [s[0]] + s[1..][..rest];
      1 + rest
  }

  /** Unicode white space, which trimming removes. */
  predicate IsSpace(c: char) {
    || '\t' <= c <= '\r' || c == ' ' || c == '\U{85}' || c == '\U{A0}' || c == '\U{1680}' || '\U{2000}' <= c <= '\U{200A}'
    || c == '\U{2028}' || c == '\U{2029}' || c == '\U{202F}' || c == '\U{205F}' || c == '\U{3000}'
  }

  function TrimLeft(s: string): string {
    if s != "" && IsSpace(s[0]) then TrimLeft(s[1..]) else s
  }

  function TrimRight(s: string): string {
    if s != "" && IsSpace(s[|s| - 1]) then TrimRight(s[..|s| - 1]) else s
  }

  function TrimSpace(s: string): string {
    TrimRight(TrimLeft(s))
  }

  function Itoa(n: int): string {
    if n < 0 then "-" + Decimal(-n) else Decimal(n)
  }

  /** Only negative numbers have a sign. */
  lemma ItoaDigits(n: int)
    ensures n >= 0 ==> Itoa(n) == Decimal(n)
    ensures n < 0 ==> Itoa(n) == "-" + Decimal(-n)
  {
  }

  // ---------------------------------------------------------------------------
  // References in env values
  // ---------------------------------------------------------------------------

  datatype RefKind = ConfigRef | SecretRef

  datatype EnvRef = EnvRef(kind: RefKind, name: string)

  function KindText(kind: RefKind): string {
    match kind case ConfigRef => "config(" case SecretRef => "secrets("
  }

  /** The text between an opening and the closing parenthesis, if that is all there is. */
  function Enclosed(v: string, open: string): Option<string> {
    if open <= v && |v| >= |open| + 2 && v[|v| - 1] == ')' && ')' !in v[|open|..|v| - 1] then Some(v[|open|..|v| - 1])
    else None
  }

  /** A value that is exactly `config(name)` or `secrets(name)`. */
  function ParseEnvRef(v: string): Option<EnvRef> {
    match Enclosed(v, "config(")
    case Some(inner) => Some(EnvRef(ConfigRef, TrimSpace(inner)))
    case None =>
      (match Enclosed(v, "secrets(")
       case Some(inner) => Some(EnvRef(SecretRef, TrimSpace(inner)))
       case None => None)
  }

  predicate MalformedEnvRef(v: string) {
    ("config(" <= v || "secrets(" <= v) && ParseEnvRef(v).None?
  }

  function SecretMountPath(name: string): string {
    "/run/secrets/" + name
  }

  /** Exactly the values of the two shapes parse, and the shape determines the kind. */
  lemma ParseEnvRefIff(v: string, kind: RefKind)
    ensures (ParseEnvRef(v).Some? && ParseEnvRef(v).value.kind == kind) <==>
            exists inner :: inner != "" && ')' !in inner && v == KindText(kind) + inner + ")"
  {
    assert "config("[0] == 'c' && "secrets("[0] == 's';
    if ParseEnvRef(v).Some? && ParseEnvRef(v).value.kind == kind {
      var open := KindText(kind);
      assert v == open + v[|open|..|v| - 1] + ")";
    }
    if exists inner :: inner != "" && ')' !in inner && v == KindText(kind) + inner + ")" {
      var inner :| inner != "" && ')' !in inner && v == KindText(kind) + inner + ")";
      assert v[|KindText(kind)|..|v| - 1] == inner;
      assert v[0] == KindText(kind)[0];
    }
  }

  predicate Trimmed(name: string) {
    name != "" && !IsSpace(name[0]) && !IsSpace(name[|name| - 1])
  }

  /** Writing a reference and parsing it gives it back, for every name that is not padded. */
  lemma ParseWrittenRef(kind: RefKind, name: string)
    requires Trimmed(name) && ')' !in name
    ensures ParseEnvRef(KindText(kind) + name + ")") == Some(EnvRef(kind, name))
  {
    var v := KindText(kind) + name + ")";
    assert v[|KindText(kind)|..|v| - 1] == name;
    assert v[0] == KindText(kind)[0];
    assert TrimLeft(name) == name && TrimRight(name) == name;
  }

  /** A value that is no reference of either kind. */
  ghost predicate PlainText(v: string) {
    forall inner :: inner != "" && ')' !in inner ==> v != "config(" + inner + ")" && v != "secrets(" + inner + ")"
  }

  ghost predicate Blank(pad: string) {
    forall i :: 0 <= i < |pad| ==> IsSpace(pad[i])
  }

  lemma SpacesAre(c: char)
    ensures c == ' ' || c == '\t' || c == '\n' || c == '\r' ==> IsSpace(c)
    ensures '!' <= c <= '~' ==> !IsSpace(c)
  {
  }

  lemma {:induction false} LeftPad(pad: string, s: string)
    requires Blank(pad) && s != "" && !IsSpace(s[0])
    ensures TrimLeft(pad + s) == s
  {
    if pad == "" {
      assert pad + s == s;
    } else {
      assert (pad + s)[1..] == pad[1..] + s;
      LeftPad(pad[1..], s);
    }
  }

  lemma {:induction false} RightPad(s: string, pad: string)
    requires Blank(pad) && s != "" && !IsSpace(s[|s| - 1])
    ensures TrimRight(s + pad) == s
  {
    if pad == "" {
      assert s + pad == s;
    } else {
      assert (s + pad)[..|s + pad| - 1] == s + pad[..|pad| - 1];
      RightPad(s, pad[..|pad| - 1]);
    }
  }

  lemma PaddedName(pad: string, name: string, pad': string)
    requires Blank(pad) && Blank(pad') && Trimmed(name)
    ensures TrimSpace(pad + name + pad') == name
  {
    assert pad + name + pad' == pad + (name + pad');
    LeftPad(pad, name + pad');
    RightPad(name, pad');
  }

  /** What a reference with a name, padded or not, is read as. */
  lemma PaddedRef(kind: RefKind, pad: string, name: string, pad': string)
    requires Blank(pad) && Blank(pad') && Trimmed(name) && ')' !in name
    ensures ParseEnvRef(KindText(kind) + pad + name + pad' + ")") == Some(EnvRef(kind, name))
  {
    var inner := pad + name + pad';
    var v := KindText(kind) + inner + ")";
    assert v == KindText(kind) + pad + name + pad' + ")";
    assert v[|KindText(kind)|..|v| - 1] == inner && v[0] == KindText(kind)[0];
    assert "config("[0] == 'c' && "secrets("[0] == 's';
    PaddedName(pad, name, pad');
    assert inner != "" && ')' !in inner by {
      assert name != "" && forall c :: IsSpace(c) ==> c != ')';
    }
    hide TrimSpace, Trimmed, Blank, IsSpace;
  }

  lemma PlainIsNoRef(v: string)
    requires PlainText(v)
    ensures ParseEnvRef(v).None?
  {
    if ParseEnvRef(v).Some? {
      hide ParseEnvRef;
      ParseEnvRefIff(v, ParseEnvRef(v).value.kind);
    }
  }

  lemma ShapedRef(v: string, kind: RefKind, inner: string)
    requires inner != "" && ')' !in inner && v == KindText(kind) + inner + ")"
    ensures ParseEnvRef(v) == Some(EnvRef(kind, TrimSpace(inner)))
  {
    hide TrimSpace;
    assert v[|KindText(kind)|..|v| - 1] == inner && v[0] == KindText(kind)[0];
    assert "config("[0] == 'c' && "secrets("[0] == 's';
  }

  // ---------------------------------------------------------------------------
  // Validation
  // ---------------------------------------------------------------------------

  predicate IsNameChar(c: char) {
    'a' <= c <= 'z' || '0' <= c <= '9' || c == '_' || c == '-'
  }

  predicate ValidName(s: string) {
    1 <= |s| <= 63 && 'a' <= s[0] <= 'z' && forall i :: 0 <= i < |s| ==> IsNameChar(s[i])
  }

  predicate ValidEnvValue(v: string, secrets: seq<string>) {
    && !MalformedEnvRef(v)
    && match ParseEnvRef(v)
       case None => true
       case Some(ref) => ref.name != "" && (ref.kind == SecretRef ==> ref.name in secrets)
  }

  predicate ValidHealthcheck(h: Healthcheck) {
    if h.kind == "" then !(h.test == [] && (h.interval != "" || h.timeout != "" || h.retries != 0))
    else if h.kind == "pg_isready" || h.kind == "http" then h.test == []
    else false
  }

  predicate ValidExpose(e: Expose, hostOk: string -> bool) {
    && 1 <= e.port <= 65535
    && e.host != "" && hostOk(e.host)
    && forall i :: 0 <= i < |e.aliases| ==> e.aliases[i] != "" && hostOk(e.aliases[i])
  }

  predicate ValidService(s: Service, hostOk: string -> bool) {
    && s.image != ""
    && (s.replicas.Some? ==> s.replicas.value >= 0)
    && !(s.runOnce && s.replicas.Some?)
    && s.placement in {"", "manager", "worker"}
    && (forall i :: 0 <= i < |s.volumes| ==> ':' in s.volumes[i])
    && (forall k :: k in s.env ==> ValidEnvValue(s.env[k], s.secrets))
    && (s.expose.Some? ==> ValidExpose(s.expose.value, hostOk))
    && (s.healthcheck.Some? ==> ValidHealthcheck(s.healthcheck.value))
    && (s.update.Some? ==> s.update.value.order in {"", "start-first", "stop-first"} && s.update.value.parallelism >= 0)
  }

  /** The semantic checks an interpolated manifest must pass; `hostOk` stands for the hostname pattern. */
  predicate Validate(app: App, hostOk: string -> bool) {
    && ValidName(app.name) && app.env != "" && app.domain != "" && app.services != map[]
    && (forall n :: n in app.services ==> ValidName(n) && ValidService(app.services[n], hostOk))
    && (forall i :: 0 <= i < |app.secrets| ==> app.secrets[i] != "")
  }

  // ---------------------------------------------------------------------------
  // Defects
  // ---------------------------------------------------------------------------

  /** A value that starts like a reference and is none, or refers to nothing, or to a secret that is not mounted. */
  ghost predicate EnvDefect(v: string, secrets: seq<string>) {
    || (("config(" <= v || "secrets(" <= v) && PlainText(v))
    || (exists inner :: inner != "" && ')' !in inner && (v == "config(" + inner + ")" || v == "secrets(" + inner + ")") && TrimSpace(inner) == "")
    || (exists inner :: inner != "" && ')' !in inner && v == "secrets(" + inner + ")" && TrimSpace(inner) !in secrets)
  }

  ghost predicate ExposeDefect(e: Expose, hostOk: string -> bool) {
    || e.port < 1 || e.port > 65535 || e.host == "" || !hostOk(e.host)
    || exists i :: 0 <= i < |e.aliases| && (e.aliases[i] == "" || !hostOk(e.aliases[i]))
  }

  ghost predicate ProbeDefect(h: Healthcheck) {
    || (h.kind != "" && h.kind != "pg_isready" && h.kind != "http")
    || (h.kind != "" && h.test != [])
    || (h.kind == "" && h.test == [] && !(h.interval == "" && h.timeout == "" && h.retries == 0))
  }

  ghost predicate ServiceDefect(s: Service, hostOk: string -> bool) {
    || s.image == ""
    || (s.replicas.Some? && (s.runOnce || s.replicas.value < 0))
    || (s.placement != "" && s.placement != "manager" && s.placement != "worker")
    || (exists i :: 0 <= i < |s.volumes| && ':' !in s.volumes[i])
    || (exists k :: k in s.env && EnvDefect(s.env[k], s.secrets))
    || (s.expose.Some? && ExposeDefect(s.expose.value, hostOk))
    || (s.healthcheck.Some? && ProbeDefect(s.healthcheck.value))
    || (s.update.Some? && (s.update.value.parallelism < 0 ||
          (s.update.value.order != "" && s.update.value.order != "start-first" && s.update.value.order != "stop-first")))
  }

  /** No name, too long a one, or one that does not start with a lower-case letter and go on with those, digits, dashes
      and underscores. */
  ghost predicate NameDefect(s: string) {
    || s == "" || |s| > 63 || !('a' <= s[0] <= 'z')
    || exists i :: 0 <= i < |s| && !('a' <= s[i] <= 'z') && !('0' <= s[i] <= '9') && s[i] != '-' && s[i] != '_'
  }

  lemma ValidEnvValueIff(v: string, secrets: seq<string>)
    ensures ValidEnvValue(v, secrets) <==> !EnvDefect(v, secrets)
  {
    hide ParseEnvRef, TrimSpace;
    assert KindText(ConfigRef) == "config(" && KindText(SecretRef) == "secrets(";
    forall inner | inner != "" && ')' !in inner && v == "config(" + inner + ")"
      ensures ParseEnvRef(v) == Some(EnvRef(ConfigRef, TrimSpace(inner)))
    {
      ShapedRef(v, ConfigRef, inner);
    }
    forall inner | inner != "" && ')' !in inner && v == "secrets(" + inner + ")"
      ensures ParseEnvRef(v) == Some(EnvRef(SecretRef, TrimSpace(inner)))
    {
      ShapedRef(v, SecretRef, inner);
    }
    ParseEnvRefIff(v, ConfigRef);
    ParseEnvRefIff(v, SecretRef);
  }

  lemma ValidServiceIff(s: Service, hostOk: string -> bool)
    ensures ValidService(s, hostOk) <==> !ServiceDefect(s, hostOk)
  {
    hide ValidEnvValue, EnvDefect;
    forall k | k in s.env
      ensures ValidEnvValue(s.env[k], s.secrets) <==> !EnvDefect(s.env[k], s.secrets)
    {
      ValidEnvValueIff(s.env[k], s.secrets);
    }
  }

  /** A manifest is rejected if and only if it has one of these defects. */
  lemma RejectedIff(app: App, hostOk: string -> bool)
    ensures !Validate(app, hostOk) <==>
      || NameDefect(app.name) || app.env == "" || app.domain == "" || app.services == map[] || "" in app.secrets
      || exists n :: n in app.services && (NameDefect(n) || ServiceDefect(app.services[n], hostOk))
  {
    hide ValidService, ServiceDefect;
    forall n | n in app.services
      ensures ValidService(app.services[n], hostOk) <==> !ServiceDefect(app.services[n], hostOk)
    {
      ValidServiceIff(app.services[n], hostOk);
    }
  }
}
