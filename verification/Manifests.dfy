/**
 The manifest transformers (internal/manifests/kustomize.go) on decoded YAML documents. Reading
 a nested slice copies it and writing it back replaces it, so documents are values here; the
 loops over containers, env entries, args and DNS names are the source's. A transformer that
 fails fails the whole rendering, which is `None`.
 */
module Manifests {
  import opened Wrappers
  import opened DnsNames

  datatype Json = Null | Bool(b: bool) | Num(n: int) | Str(s: string) | Arr(items: seq<Json>) | Obj(fields: Object)
  type Object = map<string, Json>

  datatype Nested = Found(value: Json) | Missing | Malformed

  const CONTAINERS := ["spec", "template", "spec", "containers"]
  const DNS_NAMES := ["spec", "dnsNames"]
  const ANNOTATIONS := ["metadata", "annotations"]
  const INJECT_CA := "cert-manager.io/inject-ca-from"
  const POSTURE_FLAG := "--network-policy-default-posture"

  // ---------------------------------------------------------------- nested fields

  function Get(o: Object, path: seq<string>): Nested
    requires path != []
    decreases |path|
  {
    if path[0] !in o then Missing
    else if |path| == 1 then Found(o[path[0]])
    else match o[path[0]]
      case Obj(fields) => Get(fields, path[1..])
      case Null => Missing
      case _ => Malformed
  }

  /** Replaces a field that is there. */
  function Set(o: Object, path: seq<string>, v: Json): Object
    requires path != [] && Get(o, path).Found?
    decreases |path|
  {
    if |path| == 1 then o[path[0] := v] else o[path[0] := Obj(Set(o[path[0]].fields, path[1..], v))]
  }

  lemma {:induction false} SetGet(o: Object, path: seq<string>, v: Json)
    requires path != [] && Get(o, path).Found?
    ensures Get(Set(o, path, v), path) == Found(v)
    ensures Set(o, path, v).Keys == o.Keys && forall k :: k in o && k != path[0] ==> Set(o, path, v)[k] == o[k]
    decreases |path|
  {
    if |path| > 1 { SetGet(o[path[0]].fields, path[1..], v); }
  }

  lemma {:induction false} SetSet(o: Object, path: seq<string>, v: Json, w: Json)
    requires path != [] && Get(o, path).Found?
    ensures Get(Set(o, path, v), path).Found? && Set(Set(o, path, v), path, w) == Set(o, path, w)
    decreases |path|
  {
    SetGet(o, path, v);
    if |path| > 1 { SetSet(o[path[0]].fields, path[1..], v, w); }
  }

  lemma {:induction false} SetSame(o: Object, path: seq<string>)
    requires path != [] && Get(o, path).Found?
    ensures Set(o, path, Get(o, path).value) == o
    decreases |path|
  {
    if |path| > 1 { SetSame(o[path[0]].fields, path[1..]); }
  }

  /**
   The fields the transformers read: absent or null on the way means missing, anything else but an
   object malformed.
   */
  lemma GetTwo(o: Object, a: string, b: string)
    ensures Get(o, [a, b]) ==
              if a !in o || o[a].Null? then Missing
              else if !o[a].Obj? then Malformed
              else if b !in o[a].fields then Missing
              else Found(o[a].fields[b])
  {
    assert [a, b][1..] == [b];
  }

  lemma GetContainers(o: Object, v: Json)
    ensures Get(o, CONTAINERS) == Found(v) <==>
              && "spec" in o && o["spec"].Obj?
              && "template" in o["spec"].fields && o["spec"].fields["template"].Obj?
              && var template := o["spec"].fields["template"].fields;
              && "spec" in template && template["spec"].Obj?
              && "containers" in template["spec"].fields && template["spec"].fields["containers"] == v
  {
    assert CONTAINERS[1..] == ["template", "spec", "containers"] && CONTAINERS[1..][1..] == ["spec", "containers"];
    if "spec" in o && o["spec"].Obj? && "template" in o["spec"].fields && o["spec"].fields["template"].Obj? {
      GetTwo(o["spec"].fields["template"].fields, "spec", "containers");
    }
  }

  function StringAt(o: Object, key: string): string {
    if key in o && o[key].Str? then o[key].s else ""
  }

  function Kind(o: Object): string { StringAt(o, "kind") }

  /** The list, or nothing when the field is missing or no list. */
  function SliceAt(o: Object, key: string): seq<Json> {
    if key in o && o[key].Arr? then o[key].items else []
  }

  predicate AllStrings(items: seq<Json>) { forall i :: 0 <= i < |items| ==> items[i].Str? }

  function Strings(items: seq<Json>): seq<string>
    requires AllStrings(items)
  {
    seq(|items|, i requires 0 <= i < |items| => items[i].s)
  }

  function Jsons(strings: seq<string>): (items: seq<Json>)
    ensures AllStrings(items) && Strings(items) == strings
  {
    var items := seq(|strings|, i requires 0 <= i < |strings| => Str(strings[i]));
    assert forall i :: 0 <= i < |items| ==> items[i].s == strings[i];
    items
  }

  // ---------------------------------------------------------------- env entries

  predicate Named(e: Json, name: string) { e.Obj? && StringAt(e.fields, "name") == name }

  /** The position of the first entry with that name, or the length. */
  function FirstEnv(env: seq<Json>, name: string): (i: nat)
    ensures i <= |env| && (i < |env| ==> Named(env[i], name)) && forall j :: 0 <= j < i ==> !Named(env[j], name)
  {
    if env == [] || Named(env[0], name) then 0 else 1 + FirstEnv(env[1..], name)
  }

  /** The first entry with that name gets the value and loses any valueFrom; without one an entry is appended. */
  function WithEnv(env: seq<Json>, name: string, value: string): seq<Json> {
    var i := FirstEnv(env, name);
    if i < |env| then env[i := Obj((env[i].fields - {"valueFrom"})["value" := Str(value)])]
    else env + [Obj(map["name" := Str(name), "value" := Str(value)])]
  }

  method SetEnvVar(envSlice: seq<Json>, name: string, value: string) returns (r: seq<Json>)
    requires name != ""
    ensures r == WithEnv(envSlice, name, value)
  {
    for i := 0 to |envSlice|
      invariant forall j :: 0 <= j < i ==> !Named(envSlice[j], name)
    {
      if envSlice[i].Obj? && StringAt(envSlice[i].fields, "name") == name {
        var env := envSlice[i].fields - {"valueFrom"};
        return envSlice[i := Obj(env["value" := Str(value)])];
      }
    }
    r := envSlice + [Obj(map["name" := Str(name), "value" := Str(value)])];
  }

  /** The name's first entry carries the value and nothing else as its source. */
  predicate EnvIs(env: seq<Json>, name: string, value: string) {
    var i := FirstEnv(env, name);
    i < |env| && "value" in env[i].fields && env[i].fields["value"] == Str(value) && "valueFrom" !in env[i].fields
  }

  /** Said on the entries themselves. */
  lemma EnvIsMeans(env: seq<Json>, name: string, value: string)
    requires name != ""
    ensures EnvIs(env, name, value) <==> exists i ::
              && 0 <= i < |env| && env[i].Obj? && "name" in env[i].fields && env[i].fields["name"] == Str(name)
              && "value" in env[i].fields && env[i].fields["value"] == Str(value) && "valueFrom" !in env[i].fields
              && forall j :: 0 <= j < i && env[j].Obj? && "name" in env[j].fields ==> env[j].fields["name"] != Str(name)
  {
    forall e: Json | e.Obj? ensures Named(e, name) <==> "name" in e.fields && e.fields["name"] == Str(name) {}
    forall i | 0 <= i < |env| && Named(env[i], name) && forall j :: 0 <= j < i ==> !Named(env[j], name)
      ensures i == FirstEnv(env, name)
    {
      FirstEnvIs(env, name, i);
    }
  }

  lemma FirstEnvIs(env: seq<Json>, name: string, i: nat)
    requires i <= |env| && (i < |env| ==> Named(env[i], name)) && forall j :: 0 <= j < i ==> !Named(env[j], name)
    ensures FirstEnv(env, name) == i
  {}

  /** Setting one name establishes it, and leaves every other name's first entry as it was. */
  lemma WithEnvEffect(env: seq<Json>, name: string, value: string)
    requires name != ""
    ensures EnvIs(WithEnv(env, name, value), name, value)
    ensures forall other, v :: other != name && EnvIs(env, other, v) ==> EnvIs(WithEnv(env, name, value), other, v)
    ensures EnvIs(env, name, value) ==> WithEnv(env, name, value) == env
  {
    var r, i := WithEnv(env, name, value), FirstEnv(env, name);
    assert Named(r[i], name);
    FirstEnvIs(r, name, i);
    forall other, v | other != name && EnvIs(env, other, v) ensures EnvIs(r, other, v) {
      FirstEnvIs(r, other, FirstEnv(env, other));
    }
    if EnvIs(env, name, value) {
      assert (env[i].fields - {"valueFrom"})["value" := Str(value)] == env[i].fields;
    }
  }

  /** Only the name's first entry, or a new last one, differs, and only in its value and its source. */
  predicate EnvChanged(e: Object, d: Object) {
    forall k :: k in e.Keys + d.Keys && k != "value" && k != "valueFrom" ==> k in e && k in d && e[k] == d[k]
  }

  lemma WithEnvFrame(env: seq<Json>, name: string, value: string)
    requires name != ""
    ensures var r, i := WithEnv(env, name, value), FirstEnv(env, name);
            && |r| == (if i < |env| then |env| else |env| + 1)
            && (forall j :: 0 <= j < |env| && j != i ==> r[j] == env[j])
            && (if i < |env| then r[i].Obj? && EnvChanged(env[i].fields, r[i].fields)
                else r[i] == Obj(map["name" := Str(name), "value" := Str(value)]))
            && (forall other :: other != name ==>
                 FirstEnv(r, other) == if FirstEnv(env, other) < |env| then FirstEnv(env, other) else |r|)
  {
    var r, i := WithEnv(env, name, value), FirstEnv(env, name);
    assert Named(r[i], name);
    forall other | other != name
      ensures FirstEnv(r, other) == if FirstEnv(env, other) < |env| then FirstEnv(env, other) else |r|
    {
      FirstEnvIs(r, other, if FirstEnv(env, other) < |env| then FirstEnv(env, other) else |r|);
    }
  }

  datatype Setting = Setting(name: string, value: string)

  /** The settings made one after the other. */
  function WithEnvs(env: seq<Json>, settings: seq<Setting>): seq<Json>
    decreases |settings|
  {
    if settings == [] then env
    else WithEnv(WithEnvs(env, settings[..|settings| - 1]), settings[|settings| - 1].name,
        settings[|settings| - 1].value)
  }

  function TlsSettings(minVersion: string, cipherSuites: string, groups: string): seq<Setting> {
    [Setting("TLS_MIN_VERSION", minVersion), Setting("TLS_CIPHER_SUITES", cipherSuites), Setting("TLS_GROUPS", groups),
     Setting("PROPAGATE_TLS_ENV_VARS", "true")]
  }

  ghost predicate DistinctNames(settings: seq<Setting>) {
    && (forall i :: 0 <= i < |settings| ==> settings[i].name != "")
    && (forall i, j :: 0 <= i < j < |settings| ==> settings[i].name != settings[j].name)
  }

  lemma TlsNamesDistinct(a: string, b: string, c: string)
    ensures DistinctNames(TlsSettings(a, b, c))
  {
    assert "PROPAGATE_TLS_ENV_VARS"[0] == 'P';
    assert "TLS_MIN_VERSION"[4] == 'M' && "TLS_CIPHER_SUITES"[4] == 'C' && "TLS_GROUPS"[4] == 'G';
  }

  ghost predicate AllSet(env: seq<Json>, settings: seq<Setting>) {
    forall i :: 0 <= i < |settings| ==> EnvIs(env, settings[i].name, settings[i].value)
  }

  lemma AllSetExtends(env: seq<Json>, settings: seq<Setting>, last: Setting)
    requires DistinctNames(settings + [last]) && AllSet(env, settings)
    ensures AllSet(WithEnv(env, last.name, last.value), settings + [last])
  {
    var all := settings + [last];
    assert forall i :: 0 <= i < |settings| ==> all[i] == settings[i];
    assert all[|settings|] == last;
    WithEnvEffect(env, last.name, last.value);
  }

  /** Every setting holds afterwards. */
  lemma {:induction false} WithEnvsSets(env: seq<Json>, settings: seq<Setting>)
    requires DistinctNames(settings)
    ensures AllSet(WithEnvs(env, settings), settings)
    decreases |settings|
  {
    if settings != [] {
      var before, last := settings[..|settings| - 1], settings[|settings| - 1];
      assert settings == before + [last];
      assert forall i :: 0 <= i < |before| ==> before[i] == settings[i];
      WithEnvsSets(env, before);
      AllSetExtends(WithEnvs(env, before), before, last);
    }
  }

  /** Settings that hold already change nothing. */
  lemma {:induction false} WithEnvsSettled(env: seq<Json>, settings: seq<Setting>)
    requires DistinctNames(settings) && AllSet(env, settings)
    ensures WithEnvs(env, settings) == env
    decreases |settings|
  {
    if settings != [] {
      var before, last := settings[..|settings| - 1], settings[|settings| - 1];
      assert forall i :: 0 <= i < |before| ==> before[i] == settings[i];
      WithEnvsSettled(env, before);
      WithEnvEffect(env, last.name, last.value);
    }
  }

  /** The TLS settings are set at once, and injecting them again changes nothing. */
  lemma TlsSet(env: seq<Json>, minVersion: string, cipherSuites: string, groups: string)
    ensures var settings := TlsSettings(minVersion, cipherSuites, groups); var r := WithEnvs(env, settings);
            AllSet(r, settings) && WithEnvs(r, settings) == r
    ensures var r := WithEnvs(env, TlsSettings(minVersion, cipherSuites, groups));
            && EnvIs(r, "TLS_MIN_VERSION", minVersion) && EnvIs(r, "TLS_CIPHER_SUITES", cipherSuites)
            && EnvIs(r, "TLS_GROUPS", groups) && EnvIs(r, "PROPAGATE_TLS_ENV_VARS", "true")
  {
    var settings := TlsSettings(minVersion, cipherSuites, groups);
    TlsNamesDistinct(minVersion, cipherSuites, groups);
    WithEnvsSets(env, settings);
    WithEnvsSettled(WithEnvs(env, settings), settings);
    FourSet(WithEnvs(env, settings), minVersion, cipherSuites, groups);
  }

  lemma FourSet(env: seq<Json>, minVersion: string, cipherSuites: string, groups: string)
    ensures AllSet(env, TlsSettings(minVersion, cipherSuites, groups)) <==>
              && EnvIs(env, "TLS_MIN_VERSION", minVersion) && EnvIs(env, "TLS_CIPHER_SUITES", cipherSuites)
              && EnvIs(env, "TLS_GROUPS", groups) && EnvIs(env, "PROPAGATE_TLS_ENV_VARS", "true")
  {
    var s := TlsSettings(minVersion, cipherSuites, groups);
    assert s[0].name == "TLS_MIN_VERSION" && s[1].name == "TLS_CIPHER_SUITES";
    assert s[2].name == "TLS_GROUPS" && s[3].name == "PROPAGATE_TLS_ENV_VARS";
  }

  /** No other entry is touched: those under other names, and repeated ones, stay as they are. */
  lemma TlsTouches(env: seq<Json>, minVersion: string, cipherSuites: string, groups: string)
    ensures OnlyFirsts(env, WithEnvs(env, TlsSettings(minVersion, cipherSuites, groups)),
              {"TLS_MIN_VERSION", "TLS_CIPHER_SUITES", "TLS_GROUPS", "PROPAGATE_TLS_ENV_VARS"})
  {
    var s := TlsSettings(minVersion, cipherSuites, groups);
    TlsNamesDistinct(minVersion, cipherSuites, groups);
    WithEnvsTouches(env, s);
    assert s[0].name in Names(s) && s[1].name in Names(s) && s[2].name in Names(s) && s[3].name in Names(s);
    assert Names(s) == {"TLS_MIN_VERSION", "TLS_CIPHER_SUITES", "TLS_GROUPS", "PROPAGATE_TLS_ENV_VARS"};
  }

  /** Only first entries of the given names, and entries added at the end, differ. */
  ghost predicate OnlyFirsts(env: seq<Json>, r: seq<Json>, names: set<string>) {
    && |env| <= |r|
    && (forall j :: 0 <= j < |env| && (forall n :: n in names ==> FirstEnv(env, n) != j) ==> r[j] == env[j])
    && (forall other :: other !in names ==>
         FirstEnv(r, other) == if FirstEnv(env, other) < |env| then FirstEnv(env, other) else |r|)
  }

  lemma OnlyFirstsStep(env: seq<Json>, r: seq<Json>, names: set<string>, name: string, value: string)
    requires OnlyFirsts(env, r, names) && name !in names && name != ""
    ensures OnlyFirsts(env, WithEnv(r, name, value), names + {name})
  {
    WithEnvFrame(r, name, value);
    var t := WithEnv(r, name, value);
    forall j | 0 <= j < |env| && (forall n :: n in names + {name} ==> FirstEnv(env, n) != j) ensures t[j] == env[j] {
      assert name in names + {name};
      assert forall n :: n in names ==> n in names + {name};
    }
  }

  function Names(settings: seq<Setting>): set<string> {
    set i | 0 <= i < |settings| :: settings[i].name
  }

  /** Every entry that is not the first of one of the set names keeps its place and its content. */
  lemma NamesSplit(settings: seq<Setting>)
    requires settings != [] && DistinctNames(settings)
    ensures var before, last := settings[..|settings| - 1], settings[|settings| - 1];
            DistinctNames(before) && last.name != "" && last.name !in Names(before) &&
                Names(before) + {last.name} == Names(settings)
  {
    var before := settings[..|settings| - 1];
    assert forall i :: 0 <= i < |before| ==> before[i] == settings[i];
  }

  lemma {:induction false} WithEnvsTouches(env: seq<Json>, settings: seq<Setting>)
    requires DistinctNames(settings)
    ensures OnlyFirsts(env, WithEnvs(env, settings), Names(settings))
    decreases |settings|
  {
    if settings != [] {
      var before, last := settings[..|settings| - 1], settings[|settings| - 1];
      NamesSplit(settings);
      WithEnvsTouches(env, before);
      OnlyFirstsStep(env, WithEnvs(env, before), Names(before), last.name, last.value);
    }
  }

  // ---------------------------------------------------------------- flag arguments

  predicate IsFlag(arg: string, flag: string) { arg == flag || flag + "=" <= arg }

  /** The bare flag, or the flag with a value behind an equals sign. */
  lemma IsFlagMeans(arg: string, flag: string)
    ensures IsFlag(arg, flag) <==> arg == flag || exists value :: arg == flag + "=" + value
  {
    if flag + "=" <= arg { assert arg == flag + "=" + arg[|flag| + 1..]; }
  }

  function FirstFlag(args: seq<string>, flag: string): (i: nat)
    ensures i <= |args| && (i < |args| ==> IsFlag(args[i], flag)) && forall j :: 0 <= j < i ==> !IsFlag(args[j], flag)
  {
    if args == [] || IsFlag(args[0], flag) then 0 else 1 + FirstFlag(args[1..], flag)
  }

  function WithFlag(args: seq<string>, flag: string, value: string): seq<string> {
    var i := FirstFlag(args, flag);
    if i < |args| then args[i := flag + "=" + value] else args + [flag + "=" + value]
  }

  method SetFlagArg(args: seq<string>, flag: string, value: string) returns (r: seq<string>)
    ensures r == WithFlag(args, flag, value)
  {
    var want := flag + "=" + value;
    for i := 0 to |args|
      invariant forall j :: 0 <= j < i ==> !IsFlag(args[j], flag)
    {
      if args[i] == flag || flag + "=" <= args[i] { return args[i := want]; }
    }
    r := args + [want];
  }

  function CountFlags(args: seq<string>, flag: string): nat {
    if args == [] then 0 else (if IsFlag(args[0], flag) then 1 else 0) + CountFlags(args[1..], flag)
  }

  lemma FirstFlagIs(args: seq<string>, flag: string, i: nat)
    requires i < |args| && IsFlag(args[i], flag) && forall j :: 0 <= j < i ==> !IsFlag(args[j], flag)
    ensures FirstFlag(args, flag) == i
  {}

  lemma {:induction false} CountUpdate(args: seq<string>, flag: string, i: nat, arg: string)
    requires i < |args| && IsFlag(args[i], flag) && IsFlag(arg, flag)
    ensures CountFlags(args[i := arg], flag) == CountFlags(args, flag) >= 1
  {
    if i == 0 {
      assert args[i := arg][1..] == args[1..];
    } else {
      assert args[i := arg][1..] == args[1..][i - 1 := arg];
      CountUpdate(args[1..], flag, i - 1, arg);
    }
  }

  lemma {:induction false} CountAppend(args: seq<string>, flag: string, arg: string)
    requires (forall j :: 0 <= j < |args| ==> !IsFlag(args[j], flag)) && IsFlag(arg, flag)
    ensures CountFlags(args, flag) == 0 && CountFlags(args + [arg], flag) == 1
  {
    if args == [] {
      assert [arg][1..] == [];
    } else {
      assert (args + [arg])[1..] == args[1..] + [arg];
      CountAppend(args[1..], flag, arg);
    }
  }

  /**
   The first flag entry has the value, the count is max(1, count), the rest is unchanged, and again
   changes nothing.
   */
  lemma WithFlagEffect(args: seq<string>, flag: string, value: string)
    ensures var r, i := WithFlag(args, flag, value), FirstFlag(args, flag);
            && FirstFlag(r, flag) == i && r[i] == flag + "=" + value
            && CountFlags(r, flag) == (if CountFlags(args, flag) == 0 then 1 else CountFlags(args, flag))
            && (forall j :: 0 <= j < |args| && j != i ==> r[j] == args[j])
            && WithFlag(r, flag, value) == r
  {
    var want, r, i := flag + "=" + value, WithFlag(args, flag, value), FirstFlag(args, flag);
    assert IsFlag(want, flag) by { assert want[..|flag + "="|] == flag + "="; }
    FirstFlagIs(r, flag, i);
    if i < |args| { CountUpdate(args, flag, i, want); } else { CountAppend(args, flag, want); }
  }

  // ---------------------------------------------------------------- patching the manager container

  /** The three rewrites of the manager container. */
  datatype Patch = Image(image: string) | Tls(minVersion: string, cipherSuites: string, groups: string)
      | Posture(posture: string)

  /** With nothing to set a transformer leaves every document alone. */
  predicate Idle(p: Patch) {
    match p
    case Image(image) => image == ""
    case Tls(a, b, c) => a == "" && b == "" && c == ""
    case Posture(posture) => posture == ""
  }

  predicate ArgsReadable(c: Object) { "args" in c ==> c["args"].Arr? && AllStrings(c["args"].items) }

  predicate Patchable(c: Object, p: Patch) { p.Posture? ==> ArgsReadable(c) }

  function ArgsOf(c: Object): seq<string>
    requires ArgsReadable(c)
  {
    if "args" in c then Strings(c["args"].items) else []
  }

  /** The field a patch writes; no other field of the container changes. */
  function Field(p: Patch): string {
    match p case Image(_) => "image" case Tls(_, _, _) => "env" case Posture(_) => "args"
  }

  function NewValue(c: Object, p: Patch): Json
    requires Patchable(c, p)
  {
    match p
    case Image(image) => Str(image)
    case Tls(minVersion, cipherSuites, groups) => Arr(WithEnvs(SliceAt(c, "env"),
        TlsSettings(minVersion, cipherSuites, groups)))
    case Posture(posture) => Arr(Jsons(WithFlag(ArgsOf(c), POSTURE_FLAG, posture)))
  }

  function Patched(c: Object, p: Patch): Object
    requires Patchable(c, p)
  {
    c[Field(p) := NewValue(c, p)]
  }

  predicate IsManager(c: Json) { c.Obj? && StringAt(c.fields, "name") == "manager" }

  predicate AllPatchable(cs: seq<Json>, p: Patch) {
    forall i :: 0 <= i < |cs| && IsManager(cs[i]) ==> Patchable(cs[i].fields, p)
  }

  function PatchedOne(c: Json, p: Patch): Json
    requires IsManager(c) ==> Patchable(c.fields, p)
  {
    if IsManager(c) then Obj(Patched(c.fields, p)) else c
  }

  function PatchedAll(cs: seq<Json>, p: Patch): seq<Json>
    requires AllPatchable(cs, p)
  {
    seq(|cs|, i requires 0 <= i < |cs| => PatchedOne(cs[i], p))
  }

  /** One of the first `n` containers is the manager. */
  predicate AnyManager(cs: seq<Json>, n: int)
    requires n <= |cs|
  {
    exists i :: 0 <= i < n && IsManager(cs[i])
  }

  /** A Deployment whose container list holds a manager container that the patch can read. */
  ghost predicate Ready(u: Object, p: Patch) {
    && Get(u, CONTAINERS).Found? && Get(u, CONTAINERS).value.Arr?
    && AllPatchable(Get(u, CONTAINERS).value.items, p)
    && AnyManager(Get(u, CONTAINERS).value.items, |Get(u, CONTAINERS).value.items|)
  }

  /** What a transformer does to one document. */
  ghost function Transformed(u: Object, p: Patch): Option<Object> {
    if Idle(p) || Kind(u) != "Deployment" then Some(u)
    else if !Ready(u, p) then None
    else Some(Set(u, CONTAINERS, Arr(PatchedAll(Get(u, CONTAINERS).value.items, p))))
  }

  lemma FourSettings(env: seq<Json>, s: seq<Setting>)
    requires |s| == 4
    ensures WithEnvs(env, s) ==
            WithEnv(WithEnv(WithEnv(WithEnv(env, s[0].name, s[0].value), s[1].name, s[1].value), s[2].name, s[2].value),
                s[3].name, s[3].value)
  {
    assert s[..3][..2] == s[..2] && s[..2][..1] == s[..1] && s[..1][..0] == [];
    assert WithEnvs(env, s[..1]) == WithEnv(env, s[0].name, s[0].value);
    assert WithEnvs(env, s[..2]) == WithEnv(WithEnvs(env, s[..1]), s[1].name, s[1].value);
    assert WithEnvs(env, s[..3]) == WithEnv(WithEnvs(env, s[..2]), s[2].name, s[2].value);
  }

  /** The callbacks the source passes to `withManagerContainer`. */
  method PatchContainer(c: Object, p: Patch) returns (r: Option<Object>)
    ensures r == if Patchable(c, p) then Some(Patched(c, p)) else None
  {
    match p {
      case Image(image) =>
        r := Some(c["image" := Str(image)]);
      case Tls(minVersion, cipherSuites, groups) =>
        var env := SliceAt(c, "env");
        env := SetEnvVar(env, "TLS_MIN_VERSION", minVersion);
        env := SetEnvVar(env, "TLS_CIPHER_SUITES", cipherSuites);
        env := SetEnvVar(env, "TLS_GROUPS", groups);
        env := SetEnvVar(env, "PROPAGATE_TLS_ENV_VARS", "true");
        FourSettings(SliceAt(c, "env"), TlsSettings(minVersion, cipherSuites, groups));
        r := Some(c["env" := Arr(env)]);
      case Posture(posture) =>
        if !ArgsReadable(c) { return None; }
        var args := SetFlagArg(ArgsOf(c), POSTURE_FLAG, posture);
        r := Some(c["args" := Arr(Jsons(args))]);
    }
  }

  /** The first `n` containers patched, given up at the first that cannot be read. */
  function PatchList(cs: seq<Json>, n: nat, p: Patch): Option<seq<Json>>
    requires n <= |cs|
  {
    if n == 0 then Some([])
    else
      var before := PatchList(cs, n - 1, p);
      if before.None? || (IsManager(cs[n - 1]) && !Patchable(cs[n - 1].fields, p)) then None
      else Some(before.value + [PatchedOne(cs[n - 1], p)])
  }

  lemma {:induction false} PatchListIs(cs: seq<Json>, n: nat, p: Patch)
    requires n <= |cs| && AllPatchable(cs, p)
    ensures PatchList(cs, n, p) == Some(PatchedAll(cs, p)[..n])
  {
    if n > 0 {
      PatchListIs(cs, n - 1, p);
      assert PatchedAll(cs, p)[..n] == PatchedAll(cs, p)[..n - 1] + [PatchedAll(cs, p)[n - 1]];
    }
  }

  lemma {:induction false} PatchListReads(cs: seq<Json>, n: nat, p: Patch)
    requires n <= |cs| && PatchList(cs, n, p).Some?
    ensures forall i :: 0 <= i < n && IsManager(cs[i]) ==> Patchable(cs[i].fields, p)
  {
    if n > 0 { PatchListReads(cs, n - 1, p); }
  }

  /** Patched to its end, a list is the patched list, or one of its managers cannot be read. */
  lemma PatchListWhole(cs: seq<Json>, p: Patch)
    ensures PatchList(cs, |cs|, p) == if AllPatchable(cs, p) then Some(PatchedAll(cs, p)) else None
  {
    if AllPatchable(cs, p) {
      PatchListIs(cs, |cs|, p);
      assert PatchedAll(cs, p)[..|cs|] == PatchedAll(cs, p);
    } else if PatchList(cs, |cs|, p).Some? {
      PatchListReads(cs, |cs|, p);
    }
  }

  /** Given up once, given up for good. */
  lemma {:induction false} PatchListStops(cs: seq<Json>, i: nat, n: nat, p: Patch)
    requires i <= n <= |cs| && PatchList(cs, i, p).None?
    ensures PatchList(cs, n, p).None?
  {
    if i < n { PatchListStops(cs, i, n - 1, p); }
  }

  /** Patches one container when it is the manager; `handled` says whether it was. */
  method PatchIfManager(c: Json, p: Patch) returns (r: Option<Json>, handled: bool)
    ensures handled <==> IsManager(c)
    ensures r == if IsManager(c) && !Patchable(c.fields, p) then None else Some(PatchedOne(c, p))
  {
    if !IsManager(c) { return Some(c), false; }
    var patched := PatchContainer(c.fields, p);
    r, handled := if patched.None? then None else Some(Obj(patched.value)), true;
  }

  /** The patched containers so far, and the others as they were. */
  ghost predicate Halfway(cs: seq<Json>, containers: seq<Json>, before: seq<Json>, i: int) {
    && 0 <= i <= |containers| == |cs| && |before| == i
    && (forall j :: 0 <= j < i ==> cs[j] == before[j])
    && (forall j :: i <= j < |cs| ==> cs[j] == containers[j])
  }

  lemma HalfwayNext(cs: seq<Json>, containers: seq<Json>, before: seq<Json>, i: int, v: Json)
    requires Halfway(cs, containers, before, i) && i < |containers|
    ensures Halfway(cs[i := v], containers, before + [v], i + 1)
  {}

  lemma PatchListNext(containers: seq<Json>, i: nat, p: Patch, before: seq<Json>)
    requires i < |containers| && PatchList(containers, i, p) == Some(before)
    ensures PatchList(containers, i + 1, p) ==
            if IsManager(containers[i]) && !Patchable(containers[i].fields, p) then None
                else Some(before + [PatchedOne(containers[i], p)])
  {}

  /** The loop: every container replaced by its patched form, until one cannot be read. */
  method PatchEach(containers: seq<Json>, p: Patch) returns (r: Option<seq<Json>>, handled: bool)
    ensures r == PatchList(containers, |containers|, p)
    ensures r.Some? ==> (handled <==> AnyManager(containers, |containers|))
  {
    var cs := containers;
    handled := false;
    ghost var before := [];
    for i := 0 to |containers|
      invariant Halfway(cs, containers, before, i)
      invariant PatchList(containers, i, p) == Some(before)
      invariant handled <==> AnyManager(containers, i)
    {
      PatchListNext(containers, i, p, before);
      var patched, manager := PatchIfManager(cs[i], p);
      if patched.None? {
        PatchListStops(containers, i + 1, |containers|, p);
        return None, false;
      }
      HalfwayNext(cs, containers, before, i, patched.value);
      cs, before := cs[i := patched.value], before + [patched.value];
      handled := handled || manager;
    }
    assert cs == before;
    r := Some(cs);
  }

  /** Patches every container named manager in place, and fails when there is none. */
  method PatchContainers(containers: seq<Json>, p: Patch) returns (r: Option<seq<Json>>)
    ensures r == if AllPatchable(containers, p) && AnyManager(containers, |containers|)
              then Some(PatchedAll(containers, p)) else None
  {
    var cs, handled := PatchEach(containers, p);
    PatchListWhole(containers, p);
    r := if handled then cs else None;
  }

  method Transform(u: Object, p: Patch) returns (r: Option<Object>)
    ensures r == Transformed(u, p)
  {
    if Idle(p) { return Some(u); }
    if Kind(u) != "Deployment" { return Some(u); }
    var found := Get(u, CONTAINERS);
    if !found.Found? || !found.value.Arr? { return None; }
    var containers := PatchContainers(found.value.items, p);
    if containers.None? { return None; }
    r := Some(Set(u, CONTAINERS, Arr(containers.value)));
  }

  // ---------------------------------------------------------------- idempotence and commutation

  lemma PatchedKeeps(c: Object, p: Patch)
    requires Patchable(c, p)
    ensures StringAt(Patched(c, p), "name") == StringAt(c, "name")
    ensures forall q :: Patchable(Patched(c, p), q) <==> Patchable(c, q)
    ensures forall k :: k != Field(p) ==> (k in Patched(c, p) <==> k in c) && (k in c ==> Patched(c, p)[k] == c[k])
  {
    assert "name" != "image" && "name" != "env" && "name" != "args" && "args" != "image" && "args" != "env";
  }

  /** A patch only reads the field it writes. */
  lemma NewValueReadsOwnField(c: Object, d: Object, p: Patch)
    requires Patchable(c, p) && Patchable(d, p)
    requires (Field(p) in c <==> Field(p) in d) && (Field(p) in c ==> c[Field(p)] == d[Field(p)])
    ensures NewValue(c, p) == NewValue(d, p)
  {}

  /** Patching the field a patch has written writes the same value. */
  lemma ValueStable(c: Object, d: Object, p: Patch)
    requires Patchable(c, p) && Field(p) in d && d[Field(p)] == NewValue(c, p)
    ensures Patchable(d, p) && NewValue(d, p) == NewValue(c, p)
  {
    match p {
      case Image(_) =>
      case Tls(a, b, g) => TlsSet(SliceAt(c, "env"), a, b, g);
      case Posture(posture) => WithFlagEffect(ArgsOf(c), POSTURE_FLAG, posture);
    }
  }

  lemma ContainerIdempotent(c: Object, p: Patch)
    requires Patchable(c, p)
    ensures Patchable(Patched(c, p), p) && Patched(Patched(c, p), p) == Patched(c, p)
  {
    var v, d := NewValue(c, p), Patched(c, p);
    ValueStable(c, d, p);
    assert d[Field(p) := v] == d;
  }

  /** A patch can be read, and writes the same value, after another field was written. */
  lemma ValueUndisturbed(c: Object, p: Patch, q: Patch)
    requires Patchable(c, p) && Patchable(c, q) && Field(p) != Field(q)
    ensures Patchable(Patched(c, p), q) && NewValue(Patched(c, p), q) == NewValue(c, q)
  {
    PatchedKeeps(c, p);
    NewValueReadsOwnField(c, Patched(c, p), q);
  }

  lemma UpdatesCommute(c: Object, f: string, v: Json, g: string, w: Json)
    requires f != g
    ensures c[f := v][g := w] == c[g := w][f := v]
  {}

  lemma ContainersCommute(c: Object, p: Patch, q: Patch)
    requires Patchable(c, p) && Patchable(c, q) && Field(p) != Field(q)
    ensures Patchable(Patched(c, p), q) && Patchable(Patched(c, q), p)
    ensures Patched(Patched(c, p), q) == Patched(Patched(c, q), p)
  {
    ValueUndisturbed(c, p, q);
    ValueUndisturbed(c, q, p);
    UpdatesCommute(c, Field(p), NewValue(c, p), Field(q), NewValue(c, q));
  }

  /** The containers after a patch: the same managers, readable by the same patches. */
  lemma PatchedAllKeeps(cs: seq<Json>, p: Patch)
    requires AllPatchable(cs, p)
    ensures var r := PatchedAll(cs, p);
            |r| == |cs| && forall i :: 0 <= i < |cs| ==> (IsManager(r[i]) <==> IsManager(cs[i]))
    ensures forall q :: AllPatchable(PatchedAll(cs, p), q) <==> AllPatchable(cs, q)
  {
    var r := PatchedAll(cs, p);
    forall i | 0 <= i < |cs|
      ensures (IsManager(r[i]) <==> IsManager(cs[i])) &&
                (IsManager(cs[i]) ==> forall q :: Patchable(r[i].fields, q) <==> Patchable(cs[i].fields, q))
    {
      if IsManager(cs[i]) { PatchedKeeps(cs[i].fields, p); }
    }
  }

  /** What is left of a transformed document: its kind, its other containers, and a patched list. */
  lemma TransformedShape(u: Object, p: Patch)
    requires !Idle(p) && Kind(u) == "Deployment" && Ready(u, p)
    ensures var u', cs := Transformed(u, p).value, Get(u, CONTAINERS).value.items;
            && Kind(u') == "Deployment" && Get(u', CONTAINERS) == Found(Arr(PatchedAll(cs, p)))
            && (forall q :: Ready(u', q) <==> Ready(u, q))
  {
    var cs := Get(u, CONTAINERS).value.items;
    SetGet(u, CONTAINERS, Arr(PatchedAll(cs, p)));
    PatchedAllKeeps(cs, p);
    assert "kind" != "spec";
  }

  /** Every transformer is idempotent. */
  lemma TransformIdempotent(u: Object, p: Patch)
    requires Transformed(u, p).Some?
    ensures Transformed(Transformed(u, p).value, p) == Transformed(u, p)
  {
    if !Idle(p) && Kind(u) == "Deployment" {
      var cs := Get(u, CONTAINERS).value.items;
      var r := PatchedAll(cs, p);
      TransformedShape(u, p);
      PatchedAllKeeps(cs, p);
      forall i | 0 <= i < |cs| ensures PatchedAll(r, p)[i] == r[i] {
        if IsManager(cs[i]) { ContainerIdempotent(cs[i].fields, p); }
      }
      assert PatchedAll(r, p) == r;
      SetSet(u, CONTAINERS, Arr(r), Arr(r));
    }
  }

  ghost function Then(u: Object, p: Patch, q: Patch): Option<Object> {
    match Transformed(u, p) case None => None case Some(v) => Transformed(v, q)
  }

  lemma ListsCommute(cs: seq<Json>, p: Patch, q: Patch)
    requires AllPatchable(cs, p) && AllPatchable(cs, q) && Field(p) != Field(q)
    ensures AllPatchable(PatchedAll(cs, p), q) && AllPatchable(PatchedAll(cs, q), p)
    ensures PatchedAll(PatchedAll(cs, p), q) == PatchedAll(PatchedAll(cs, q), p)
  {
    PatchedAllKeeps(cs, p);
    PatchedAllKeeps(cs, q);
    var csP, csQ := PatchedAll(cs, p), PatchedAll(cs, q);
    forall i | 0 <= i < |cs| ensures PatchedOne(csP[i], q) == PatchedOne(csQ[i], p) {
      if IsManager(cs[i]) { ContainersCommute(cs[i].fields, p, q); }
    }
  }

  /** Two effective transformers on a Deployment patch its list twice, or one of them fails. */
  lemma ThenShape(u: Object, p: Patch, q: Patch)
    requires !Idle(p) && !Idle(q) && Kind(u) == "Deployment"
    ensures Then(u, p, q).Some? <==> Ready(u, p) && Ready(u, q)
    ensures Ready(u, p) && Ready(u, q) ==>
              var cs := Get(u, CONTAINERS).value.items;
              && AllPatchable(PatchedAll(cs, p), q)
              && Then(u, p, q) == Some(Set(u, CONTAINERS, Arr(PatchedAll(PatchedAll(cs, p), q))))
  {
    if Ready(u, p) {
      var cs := Get(u, CONTAINERS).value.items;
      TransformedShape(u, p);
      PatchedAllKeeps(cs, p);
      if Ready(u, q) { SetSet(u, CONTAINERS, Arr(PatchedAll(cs, p)), Arr(PatchedAll(PatchedAll(cs, p), q))); }
    }
  }

  /** Transformers of different fields commute, and fail on the same documents in either order. */
  lemma TransformsCommute(u: Object, p: Patch, q: Patch)
    requires Field(p) != Field(q)
    ensures Then(u, p, q) == Then(u, q, p)
  {
    if Idle(p) {
    } else if Idle(q) {
    } else if Kind(u) == "Deployment" {
      ThenShape(u, p, q);
      ThenShape(u, q, p);
      if Ready(u, p) && Ready(u, q) { ListsCommute(Get(u, CONTAINERS).value.items, p, q); }
    }
  }

  /** What a successful transformer leaves alone, and that success means a manager container. */
  lemma TransformTouchesOneField(u: Object, p: Patch)
    requires !Idle(p) && Kind(u) == "Deployment" && Transformed(u, p).Some?
    ensures var u', cs := Transformed(u, p).value, Get(u, CONTAINERS).value.items;
            && Get(u', CONTAINERS).Found? && Get(u', CONTAINERS).value.Arr?
            && var ds := Get(u', CONTAINERS).value.items;
            && |ds| == |cs| && AnyManager(ds, |ds|)
            && var field := match p case Image(_) => "image" case Tls(_, _, _) => "env" case Posture(_) => "args";
            && (forall i :: 0 <= i < |ds| ==>
                  || ds[i] == cs[i]
                  || (cs[i].Obj? && "name" in cs[i].fields && cs[i].fields["name"] == Str("manager")))
            && (forall i, k :: 0 <= i < |ds| && IsManager(cs[i]) && k != field ==>
                  ds[i].Obj? && (k in ds[i].fields <==> k in cs[i].fields) &&
                  (k in cs[i].fields ==> ds[i].fields[k] == cs[i].fields[k]))
    ensures Set(Transformed(u, p).value, CONTAINERS, Get(u, CONTAINERS).value) == u
  {
    var cs := Get(u, CONTAINERS).value.items;
    TransformedShape(u, p);
    PatchedAllKeeps(cs, p);
    forall i | 0 <= i < |cs| && IsManager(cs[i])
      ensures forall k :: k != Field(p) ==>
                && (k in PatchedAll(cs, p)[i].fields <==> k in cs[i].fields)
                && (k in cs[i].fields ==> PatchedAll(cs, p)[i].fields[k] == cs[i].fields[k])
    {
      PatchedKeeps(cs[i].fields, p);
    }
    SetSet(u, CONTAINERS, Arr(PatchedAll(cs, p)), Get(u, CONTAINERS).value);
    SetSame(u, CONTAINERS);
  }

  /** What a patched container holds, as the source's settings name it. */
  lemma PatchedHolds(c: Object, p: Patch)
    requires Patchable(c, p)
    ensures var d := Patched(c, p);
            && (p.Image? ==> "image" in d && d["image"] == Str(p.image))
            && (p.Tls? ==>
                  && "env" in d && d["env"].Arr?
                  && EnvIs(d["env"].items, "TLS_MIN_VERSION", p.minVersion)
                  && EnvIs(d["env"].items, "TLS_CIPHER_SUITES", p.cipherSuites)
                  && EnvIs(d["env"].items, "TLS_GROUPS", p.groups)
                  && EnvIs(d["env"].items, "PROPAGATE_TLS_ENV_VARS", "true"))
            && (p.Posture? ==>
                  && "args" in d && d["args"].Arr? && AllStrings(d["args"].items)
                  && var args, i := Strings(d["args"].items), FirstFlag(Strings(d["args"].items), POSTURE_FLAG);
                  && i < |args| && args[i] == "--network-policy-default-posture=" + p.posture)
  {
    match p {
      case Image(_) =>
      case Tls(a, b, g) => TlsSet(SliceAt(c, "env"), a, b, g);
      case Posture(posture) => WithFlagEffect(ArgsOf(c), POSTURE_FLAG, posture);
    }
  }

  /** Where the containers of a transformed Deployment are, and that each manager among them was patched. */
  lemma ManagersPatched(u: Object, p: Patch, i: int)
    requires !Idle(p) && Kind(u) == "Deployment" && Transformed(u, p).Some?
    ensures var found := Get(Transformed(u, p).value, CONTAINERS);
            && found.Found? && found.value.Arr?
            && (0 <= i < |found.value.items| && IsManager(found.value.items[i]) ==>
                  exists c :: Patchable(c, p) && found.value.items[i] == Obj(Patched(c, p)))
  {
    var cs := Get(u, CONTAINERS).value.items;
    TransformedShape(u, p);
    PatchedAllKeeps(cs, p);
    if 0 <= i < |cs| && IsManager(cs[i]) {
      assert PatchedAll(cs, p)[i] == Obj(Patched(cs[i].fields, p));
    }
  }

  /** Every manager container of a transformed Deployment holds what was asked for. */
  lemma TransformEstablishes(u: Object, p: Patch, i: int)
    requires !Idle(p) && Kind(u) == "Deployment" && Transformed(u, p).Some?
    ensures var found := Get(Transformed(u, p).value, ["spec", "template", "spec", "containers"]);
            && found.Found? && found.value.Arr?
            && (0 <= i < |found.value.items| && found.value.items[i].Obj? && "name" in found.value.items[i].fields &&
                found.value.items[i].fields["name"] == Str("manager") ==>
                  var d := found.value.items[i].fields;
                  && (p.Image? ==> "image" in d && d["image"] == Str(p.image))
                  && (p.Tls? ==>
                        && "env" in d && d["env"].Arr?
                        && EnvIs(d["env"].items, "TLS_MIN_VERSION", p.minVersion)
                        && EnvIs(d["env"].items, "TLS_CIPHER_SUITES", p.cipherSuites)
                        && EnvIs(d["env"].items, "TLS_GROUPS", p.groups)
                        && EnvIs(d["env"].items, "PROPAGATE_TLS_ENV_VARS", "true"))
                  && (p.Posture? ==>
                        && "args" in d && d["args"].Arr? && AllStrings(d["args"].items)
                        && var args, k := Strings(d["args"].items), FirstFlag(Strings(d["args"].items), POSTURE_FLAG);
                        && k < |args| && args[k] == "--network-policy-default-posture=" + p.posture))
  {
    ManagersPatched(u, p, i);
    var cs := Get(Transformed(u, p).value, CONTAINERS).value.items;
    if 0 <= i < |cs| && IsManager(cs[i]) {
      var c :| Patchable(c, p) && cs[i] == Obj(Patched(c, p));
      PatchedHolds(c, p);
    }
  }

  /**
   A document is left alone when there is nothing to set or it is no Deployment; otherwise the transformer
   fails exactly when the containers cannot be read, none is the manager, or the arguments of one that is
   cannot be read by the posture.
   */
  lemma TransformFailsExactly(u: Object, p: Patch)
    ensures p == Image("") || p == Tls("", "", "") || p == Posture("") ==> Transformed(u, p) == Some(u)
    ensures !("kind" in u && u["kind"] == Str("Deployment")) ==> Transformed(u, p) == Some(u)
    ensures !(p == Image("") || p == Tls("", "", "") || p == Posture("")) &&
            "kind" in u && u["kind"] == Str("Deployment") ==>
              var found := Get(u, ["spec", "template", "spec", "containers"]);
              (Transformed(u, p).Some? <==>
                && found.Found? && found.value.Arr?
                && (exists c :: c in found.value.items && c.Obj? && "name" in c.fields &&
                     c.fields["name"] == Str("manager"))
                && (p.Posture? ==>
                      forall c :: c in found.value.items && c.Obj? && "name" in c.fields &&
                                  c.fields["name"] == Str("manager") && "args" in c.fields ==>
                        c.fields["args"].Arr? && forall a :: a in c.fields["args"].items ==> a.Str?))
  {
    var found := Get(u, CONTAINERS);
    if found.Found? && found.value.Arr? {
      forall c | c in found.value.items
        ensures IsManager(c) <==> c.Obj? && "name" in c.fields && c.fields["name"] == Str("manager")
      {}
    }
  }

  // ---------------------------------------------------------------- the cert-manager namespace

  /** Annotations that can be read as a string map. */
  predicate Annotated(u: Object) {
    && Get(u, ANNOTATIONS).Found? && Get(u, ANNOTATIONS).value.Obj?
    && forall k :: k in Get(u, ANNOTATIONS).value.fields ==> Get(u, ANNOTATIONS).value.fields[k].Str?
  }

  function Retargeted(v: string, from: string, to: string): string {
    if from + "/" <= v then to + "/" + v[|from| + 1..] else v
  }

  /** What stands behind the namespace and its slash is kept; any other value is left alone. */
  lemma RetargetedMeans(v: string, from: string, to: string)
    ensures forall rest :: v == from + "/" + rest ==> Retargeted(v, from, to) == to + "/" + rest
    ensures (forall rest :: v != from + "/" + rest) ==> Retargeted(v, from, to) == v
  {
    forall rest | v == from + "/" + rest ensures Retargeted(v, from, to) == to + "/" + rest {
      assert v[|from| + 1..] == rest;
    }
    if from + "/" <= v { assert v == from + "/" + v[|from| + 1..]; }
  }

  function WithAnnotation(u: Object, from: string, to: string): Object {
    if Annotated(u) && INJECT_CA in Get(u, ANNOTATIONS).value.fields then
      var annotations := Get(u, ANNOTATIONS).value.fields;
      Set(u, ANNOTATIONS, Obj(annotations[INJECT_CA := Str(Retargeted(annotations[INJECT_CA].s, from, to))]))
    else u
  }

  predicate ReadableNames(u: Object) {
    Get(u, DNS_NAMES).Found? && Get(u, DNS_NAMES).value.Arr? && AllStrings(Get(u, DNS_NAMES).value.items)
  }

  function NamesOf(u: Object): seq<string>
    requires ReadableNames(u)
  {
    Strings(Get(u, DNS_NAMES).value.items)
  }

  function RewriteAll(names: seq<string>, from: string, to: string): seq<string> {
    seq(|names|, i requires 0 <= i < |names| => Rewrite(names[i], from, to))
  }

  function WithNames(u: Object, from: string, to: string): Option<Object> {
    if Kind(u) != "Certificate" || Get(u, DNS_NAMES).Missing? then Some(u)
    else if !ReadableNames(u) then None
    else Some(Set(u, DNS_NAMES, Arr(Jsons(RewriteAll(NamesOf(u), from, to)))))
  }

  function Renamespaced(u: Object, from: string, to: string): Option<Object> {
    if from == to || from == "" then Some(u) else WithNames(WithAnnotation(u, from, to), from, to)
  }

  method RewriteAnnotation(u: Object, fromNS: string, toNS: string) returns (r: Object)
    ensures r == WithAnnotation(u, fromNS, toNS)
  {
    r := u;
    if Annotated(u) {
      var annotations := Get(u, ANNOTATIONS).value.fields;
      if INJECT_CA in annotations {
        var v := annotations[INJECT_CA].s;
        if fromNS + "/" <= v {
          r := Set(u, ANNOTATIONS, Obj(annotations[INJECT_CA := Str(toNS + "/" + v[|fromNS| + 1..])]));
        } else {
          assert annotations[INJECT_CA := Str(v)] == annotations;
          SetSame(u, ANNOTATIONS);
        }
      }
    }
  }

  method RewriteNames(names: seq<string>, fromNS: string, toNS: string) returns (dnsNames: seq<string>, changed: bool)
    ensures dnsNames == RewriteAll(names, fromNS, toNS) && (changed <==> dnsNames != names)
  {
    dnsNames, changed := names, false;
    for i := 0 to |names|
      invariant |dnsNames| == |names|
      invariant forall j :: 0 <= j < |names| ==>
                  dnsNames[j] == if j < i then Rewrite(names[j], fromNS, toNS) else names[j]
      invariant changed <==> exists j :: 0 <= j < i && dnsNames[j] != names[j]
    {
      var updated := Rewrite(names[i], fromNS, toNS);
      if updated != names[i] {
        dnsNames, changed := dnsNames[i := updated], true;
      }
    }
  }

  method RewriteCertManagerNamespace(u: Object, fromNS: string, toNS: string) returns (r: Option<Object>)
    ensures r == Renamespaced(u, fromNS, toNS)
  {
    if fromNS == toNS || fromNS == "" { return Some(u); }
    var v := RewriteAnnotation(u, fromNS, toNS);
    if Kind(v) == "Certificate" {
      var found := Get(v, DNS_NAMES);
      if found.Malformed? || (found.Found? && (!found.value.Arr? || !AllStrings(found.value.items))) { return None; }
      if found.Found? {
        var dnsNames, changed := RewriteNames(Strings(found.value.items), fromNS, toNS);
        if changed {
          v := Set(v, DNS_NAMES, Arr(Jsons(dnsNames)));
        } else {
          JsonsOfStrings(found.value.items);
          SetSame(v, DNS_NAMES);
        }
      }
    }
    r := Some(v);
  }

  lemma JsonsOfStrings(items: seq<Json>)
    requires AllStrings(items)
    ensures Jsons(Strings(items)) == items
  {
    var again := Jsons(Strings(items));
    assert forall i :: 0 <= i < |items| ==> again[i] == Str(Strings(items)[i]);
  }

  lemma FirstSlash(w: string, a: string, b: string)
    requires '/' !in a && '/' !in b
    ensures a + "/" <= w && b + "/" <= w ==> a == b
  {
    if a + "/" <= w && b + "/" <= w {
      assert w[|a|] == (a + "/")[|a|] == '/' && w[|b|] == (b + "/")[|b|] == '/';
      assert forall k :: 0 <= k < |a| ==> w[k] == (a + "/")[k] == a[k];
      assert forall k :: 0 <= k < |b| ==> w[k] == (b + "/")[k] == b[k];
      assert w[..|a|] == a && w[..|b|] == b;
    }
  }

  lemma RetargetOnce(v: string, from: string, to: string)
    requires '/' !in from && '/' !in to && from != to
    ensures Retargeted(Retargeted(v, from, to), from, to) == Retargeted(v, from, to)
  {
    FirstSlash(Retargeted(v, from, to), from, to);
    assert from + "/" <= v ==> to + "/" <= Retargeted(v, from, to);
  }

  /** The annotation step leaves the kind and the DNS names alone, and settles after one pass. */
  lemma AnnotationKeeps(u: Object, from: string, to: string)
    ensures var w := WithAnnotation(u, from, to); Kind(w) == Kind(u) && Get(w, DNS_NAMES) == Get(u, DNS_NAMES)
    ensures '/' !in from && '/' !in to && from != to ==>
              WithAnnotation(WithAnnotation(u, from, to), from, to) == WithAnnotation(u, from, to)
  {
    assert "metadata" != "spec" && "metadata" != "kind";
    if Annotated(u) && INJECT_CA in Get(u, ANNOTATIONS).value.fields {
      var annotations := Get(u, ANNOTATIONS).value.fields;
      var once := annotations[INJECT_CA := Str(Retargeted(annotations[INJECT_CA].s, from, to))];
      SetGet(u, ANNOTATIONS, Obj(once));
      if '/' !in from && '/' !in to && from != to {
        RetargetOnce(annotations[INJECT_CA].s, from, to);
        assert once[INJECT_CA := once[INJECT_CA]] == once;
        SetSame(WithAnnotation(u, from, to), ANNOTATIONS);
      }
    }
  }

  /** The two fields it touches: everything else, and the number and order of the names, stay. */
  lemma RenamespaceTouches(u: Object, from: string, to: string)
    requires from != to && from != "" && Renamespaced(u, from, to).Some?
    ensures var w := Renamespaced(u, from, to).value;
            && w.Keys == u.Keys && (forall k :: k in u && k != "metadata" && k != "spec" ==> w[k] == u[k])
            && (Kind(u) != "Certificate" ==> Get(w, DNS_NAMES) == Get(u, DNS_NAMES))
            && (Kind(u) == "Certificate" && !Get(u, DNS_NAMES).Missing? ==>
                  && ReadableNames(u) && ReadableNames(w)
                  && NamesOf(w) == RewriteAll(NamesOf(u), from, to)
                  && Set(w, DNS_NAMES, Get(u, DNS_NAMES).value) == WithAnnotation(u, from, to))
  {
    var v := WithAnnotation(u, from, to);
    AnnotationKeeps(u, from, to);
    if v != u { SetGet(u, ANNOTATIONS, Get(v, ANNOTATIONS).value); }
    if Kind(u) == "Certificate" && !Get(u, DNS_NAMES).Missing? {
      var names := Arr(Jsons(RewriteAll(NamesOf(v), from, to)));
      SetGet(v, DNS_NAMES, names);
      SetSet(v, DNS_NAMES, names, Get(u, DNS_NAMES).value);
      SetSame(v, DNS_NAMES);
    }
  }

  /** The annotation afterwards: retargeted where it can be read, and everything else about them as it was. */
  lemma RenamespacedAnnotations(u: Object, from: string, to: string)
    requires from != to && from != "" && Renamespaced(u, from, to).Some?
    ensures var before := Get(u, ["metadata", "annotations"]);
            var after := Get(Renamespaced(u, from, to).value, ["metadata", "annotations"]);
            if before.Found? && before.value.Obj? &&
                (forall k :: k in before.value.fields ==> before.value.fields[k].Str?)
               && "cert-manager.io/inject-ca-from" in before.value.fields
            then
              && after.Found? && after.value.Obj? && after.value.fields.Keys == before.value.fields.Keys
              && after.value.fields["cert-manager.io/inject-ca-from"] ==
                   Str(Retargeted(before.value.fields["cert-manager.io/inject-ca-from"].s, from, to))
              && forall k :: k in before.value.fields && k != "cert-manager.io/inject-ca-from" ==>
                   after.value.fields[k] == before.value.fields[k]
            else after == before
  {
    var v := WithAnnotation(u, from, to);
    AnnotationKeeps(u, from, to);
    if v != u { SetGet(u, ANNOTATIONS, Get(v, ANNOTATIONS).value); }
    if Annotated(u) && INJECT_CA in Get(u, ANNOTATIONS).value.fields {
      var annotations := Get(u, ANNOTATIONS).value.fields;
      SetGet(u, ANNOTATIONS, Obj(annotations[INJECT_CA := Str(Retargeted(annotations[INJECT_CA].s, from, to))]));
    }
    NamesLeaveAnnotations(v, from, to);
  }

  lemma NamesLeaveAnnotations(v: Object, from: string, to: string)
    ensures WithNames(v, from, to).Some? ==> Get(WithNames(v, from, to).value, ANNOTATIONS) == Get(v, ANNOTATIONS)
  {
    if Kind(v) == "Certificate" && !Get(v, DNS_NAMES).Missing? && ReadableNames(v) {
      SetGet(v, DNS_NAMES, Arr(Jsons(RewriteAll(NamesOf(v), from, to))));
      assert "metadata" != "spec";
    }
  }

  /**
   The DNS names afterwards: only a Certificate's are rewritten, each by itself, and it fails when they
   cannot be read.
   */
  lemma RenamespacedNames(u: Object, from: string, to: string)
    requires from != to && from != ""
    ensures var before := Get(u, ["spec", "dnsNames"]); var w := Renamespaced(u, from, to);
            var certificate := "kind" in u && u["kind"] == Str("Certificate");
            && (w.None? <==>
                  && certificate && !before.Missing?
                  && !(before.Found? && before.value.Arr? && forall n :: n in before.value.items ==> n.Str?))
            && (w.Some? && !certificate ==> Get(w.value, ["spec", "dnsNames"]) == before)
            && (w.Some? && certificate && before.Found? ==>
                  var after := Get(w.value, ["spec", "dnsNames"]);
                  && after.Found? && after.value.Arr? && |after.value.items| == |before.value.items|
                  && forall i :: 0 <= i < |before.value.items| ==>
                       after.value.items[i] == Str(Rewrite(before.value.items[i].s, from, to)))
  {
    var v := WithAnnotation(u, from, to);
    AnnotationKeeps(u, from, to);
    var before := Get(u, DNS_NAMES);
    if Kind(v) == "Certificate" && before.Found? && ReadableNames(v) {
      var names := RewriteAll(NamesOf(v), from, to);
      SetGet(v, DNS_NAMES, Arr(Jsons(names)));
      assert forall i :: 0 <= i < |names| ==> Strings(Jsons(names))[i] == names[i];
    }
  }

  /** No DNS name has two neighbouring interior labels equal to the old namespace. */
  ghost predicate NoOverlap(u: Object, from: string) {
    Kind(u) == "Certificate" && ReadableNames(u) ==> forall i :: 0 <= i < |NamesOf(u)| ==>
        !Adjacent(Split(NamesOf(u)[i]), from)
  }

  /** The namespace rewrite is idempotent exactly on the documents without overlapping labels. */
  lemma RenamespaceIdempotent(u: Object, from: string, to: string)
    requires DotFree(from) && DotFree(to) && '/' !in from && '/' !in to && from != to && from != ""
    requires Renamespaced(u, from, to).Some?
    ensures Renamespaced(Renamespaced(u, from, to).value, from, to) == Renamespaced(u, from, to) <==> NoOverlap(u, from)
  {
    var v := WithAnnotation(u, from, to);
    AnnotationKeeps(u, from, to);
    if Kind(u) == "Certificate" && !Get(u, DNS_NAMES).Missing? {
      var names := NamesOf(u);
      var once := RewriteAll(names, from, to);
      var twice := RewriteAll(once, from, to);
      NamesSettle(names, from, to);
      NamesThenAnnotation(v, Arr(Jsons(once)), from, to);
      var w := Set(v, DNS_NAMES, Arr(Jsons(once)));
      SetGet(v, DNS_NAMES, Arr(Jsons(once)));
      SetSet(v, DNS_NAMES, Arr(Jsons(once)), Arr(Jsons(twice)));
      assert Kind(w) == Kind(v) by { assert "kind" != "spec"; }
      assert NamesOf(w) == once;
      assert Renamespaced(w, from, to) == Some(Set(w, DNS_NAMES, Arr(Jsons(twice))));
      SetGet(w, DNS_NAMES, Arr(Jsons(twice)));
      if once == twice { SetSame(w, DNS_NAMES); }
      else { assert Strings(Jsons(twice)) == twice && Strings(Jsons(once)) == once; }
    }
  }

  lemma NamesSettle(names: seq<string>, from: string, to: string)
    requires DotFree(from) && DotFree(to) && from != to
    ensures RewriteAll(RewriteAll(names, from, to), from, to) == RewriteAll(names, from, to)
            <==> forall i :: 0 <= i < |names| ==> !Adjacent(Split(names[i]), from)
  {
    var once := RewriteAll(names, from, to);
    var twice := RewriteAll(once, from, to);
    forall i | 0 <= i < |names| ensures twice[i] == once[i] <==> !Adjacent(Split(names[i]), from) {
      RewriteIdempotent(names[i], from, to);
    }
  }

  /** The annotation step sees nothing of the names. */
  lemma NamesThenAnnotation(v: Object, names: Json, from: string, to: string)
    requires Get(v, DNS_NAMES).Found? && WithAnnotation(v, from, to) == v
    ensures WithAnnotation(Set(v, DNS_NAMES, names), from, to) == Set(v, DNS_NAMES, names)
  {}
}
