/** What `map_mcp` reads, written as a relation between JSON and the record: every key by name, every default by value,
    for objects that lack a key as well as for those that carry it. */
module McpReading {
  import opened Common
  import opened McpCodec
  import opened McpCodecRoundTrip
  import opened PyValues

  type Fields = map<string, Json>

  // ---------------------------------------------------------------- keys

  /** A key that must be there, as text. */
  predicate TextAt(o: Fields, k: string, s: string) {
    k in o && Says(o[k], s)
  }

  /** A key with a default for when it is absent; null is not absent. */
  predicate TextOr(o: Fields, k: string, default: string, s: string) {
    if k in o then Says(o[k], s) else s == default
  }

  /** A key with a default for when it is absent or false. */
  predicate TrueTextOr(o: Fields, k: string, default: string, s: string) {
    if k in o && !Falsy(o[k]) then Says(o[k], s) else s == default
  }

  predicate SwitchOr(o: Fields, k: string, default: bool, b: bool) {
    b <==> if k in o then !Falsy(o[k]) else default
  }

  /** A text or nothing. */
  predicate OptionalAt(o: Fields, k: string, v: Option<string>) {
    if k in o && o[k] != Null then o[k].Str? && v == Some(o[k].s) else v == None
  }

  /** A list; absent and false mean empty. */
  predicate ListAt(o: Fields, k: string, items: seq<Json>) {
    if k in o && !Falsy(o[k]) then o[k] == Arr(items) else items == []
  }

  /** An object; absent and false mean empty. */
  predicate ObjectAt(o: Fields, k: string, sub: Fields) {
    if k in o && !Falsy(o[k]) then o[k] == Obj(sub) else sub == map[]
  }

  // ---------------------------------------------------------------- parts

  predicate ReadsSecret(o: Fields, r: SecretRef) {
    TextAt(o, "name", r.name) && TextOr(o, "key", "token", r.key) && SwitchOr(o, "writable", false, r.writable)
  }

  predicate ReadsBearer(o: Fields, b: Option<SecretRef>) {
    if "bearerSecretRef" in o && !Falsy(o["bearerSecretRef"])
    then b.Some? && o["bearerSecretRef"].Obj? && ReadsSecret(o["bearerSecretRef"].fields, b.value)
    else b == None
  }

  predicate ReadsPort(j: Json, p: NamedPort) {
    && j.Obj? && TextAt(j.fields, "name", p.name) && TextOr(j.fields, "protocol", "TCP", p.protocol)
    && "containerPort" in j.fields && Counts(j.fields["containerPort"], p.containerPort)
  }

  predicate ReadsEndpoint(o: Fields, e: McpEndpoint) {
    TextOr(o, "portName", "http", e.portName) && TextOr(o, "path", "/mcp", e.path)
  }

  /** Objects without a name are skipped. */
  predicate ReadsEnv(items: seq<Json>, env: seq<(string, string)>) {
    if items == [] then env == []
    else
      && items[0].Obj?
      && if "name" !in items[0].fields then ReadsEnv(items[1..], env)
         else
           && env != [] && TextAt(items[0].fields, "name", env[0].0)
           && TextOr(items[0].fields, "value", "", env[0].1) && ReadsEnv(items[1..], env[1..])
  }

  predicate ReadsPeer(namespace: string, o: Fields, peer: GatewayKey) {
    && "name" in o && !Falsy(o["name"]) && Says(o["name"], peer.name)
    && TrueTextOr(o, "namespace", namespace, peer.namespace)
  }

  ghost predicate ReadsPorts(o: Fields, ports: seq<NamedPort>) {
    exists items :: ListAt(o, "ports", items) && |items| == |ports|
                    && forall i | 0 <= i < |items| :: ReadsPort(items[i], ports[i])
  }

  ghost predicate ReadsEndpointAt(o: Fields, e: McpEndpoint) {
    exists sub :: ObjectAt(o, "mcpEndpoint", sub) && ReadsEndpoint(sub, e)
  }

  ghost predicate ReadsEnvAt(o: Fields, env: seq<(string, string)>) {
    exists items :: ListAt(o, "env", items) && ReadsEnv(items, env)
  }

  ghost predicate ReadsPeerAt(namespace: string, o: Fields, peer: GatewayKey) {
    exists sub :: ObjectAt(o, "peerGatewayRef", sub) && ReadsPeer(namespace, sub, peer)
  }

  predicate ReadsProxyPort(o: Fields, port: int) {
    if "port" in o && !Falsy(o["port"]) then Counts(o["port"], port) else port == 8080
  }

  ghost predicate ReadsSource(namespace: string, o: Fields, s: Source) {
    match s
    case RemoteHttp(url, bearer) =>
      "type" in o && o["type"] == Str("RemoteHttp") && TextAt(o, "url", url) && ReadsBearer(o, bearer)
    case ContainerImage(image, ports, endpoint, env) =>
      && "type" in o && o["type"] == Str("ContainerImage") && TextAt(o, "image", image)
      && ReadsPorts(o, ports) && ReadsEndpointAt(o, endpoint) && ReadsEnvAt(o, env)
    case VmcpProxy(peer, path, port, bearer) =>
      && "type" in o && o["type"] == Str("VmcpProxy")
      && ReadsPeerAt(namespace, o, peer) && TrueTextOr(o, "path", "/mcp-proxy", path)
      && ReadsProxyPort(o, port) && ReadsBearer(o, bearer)
  }

  predicate ReadsOverride(j: Json, ov: ToolOverride) {
    && j.Obj? && TextAt(j.fields, "name", ov.name) && OptionalAt(j.fields, "taskSupport", ov.taskSupport)
    && "readOnly" in j.fields && (ov.readOnly <==> !Falsy(j.fields["readOnly"]))
  }

  predicate ReadsSkill(j: Json, r: SkillRef) {
    j.Obj? && TextAt(j.fields, "name", r.name) && OptionalAt(j.fields, "key", r.key)
  }

  predicate ReadsParent(o: Fields, p: ParentRef) {
    TextAt(o, "name", p.name) && OptionalAt(o, "namespace", p.namespace) && OptionalAt(o, "sectionName", p.sectionName)
  }

  /** Annotations come as pairs in key order. */
  ghost predicate ReadsAnnotations(o: Fields, pairs: seq<(string, string)>) {
    && StrictlySorted(Firsts(pairs)) && (forall k :: k in o <==> k in Firsts(pairs))
    && forall i | 0 <= i < |pairs| :: TextAt(o, pairs[i].0, pairs[i].1)
  }

  // ---------------------------------------------------------------- agreement, part by part

  lemma {:induction false} SecretIff(j: Json, r: SecretRef)
    ensures MapSecretRef(j) == Ok(r) <==> j.Obj? && ReadsSecret(j.fields, r)
  {
    if j.Obj? {
      var o := j.fields;
      if "name" in o { SaysIs(o["name"], r.name); }
      if "key" in o { SaysIs(o["key"], r.key); }
      if "writable" in o { TruthIs(o["writable"]); }
    }
  }

  lemma {:induction false} BearerIff(o: Fields, b: Option<SecretRef>)
    ensures MapBearer(o) == Ok(b) <==> ReadsBearer(o, b)
  {
    if "bearerSecretRef" in o {
      TruthIs(o["bearerSecretRef"]);
      if b.Some? { SecretIff(o["bearerSecretRef"], b.value); }
    }
  }

  lemma {:induction false} PortIff(j: Json, p: NamedPort)
    ensures MapPort(j) == Ok(p) <==> ReadsPort(j, p)
  {
    if j.Obj? {
      var o := j.fields;
      if "name" in o { SaysIs(o["name"], p.name); }
      if "protocol" in o { SaysIs(o["protocol"], p.protocol); }
      if "containerPort" in o { CountsIs(o["containerPort"], p.containerPort); }
    }
  }

  lemma {:induction false} ListIff(o: Fields, k: string, items: seq<Json>)
    ensures ArrGet(o, k) == Ok(items) <==> ListAt(o, k, items)
  {
    if k in o { TruthIs(o[k]); }
  }

  lemma {:induction false} ObjectIff(o: Fields, k: string, sub: Fields)
    ensures ObjGet(o, k) == Ok(sub) <==> ObjectAt(o, k, sub)
  {
    if k in o { TruthIs(o[k]); }
  }

  lemma {:induction false} TraverseIff<T>(items: seq<Json>, f: Json -> Res<T>, xs: seq<T>)
    ensures Traverse(items, f) == Ok(xs) <==>
            |xs| == |items| && forall i | 0 <= i < |items| :: f(items[i]) == Ok(xs[i])
    decreases |items|
  {
    if items != [] {
      if xs != [] {
        TraverseIff(items[1..], f, xs[1..]);
        assert xs == [xs[0]] + xs[1..];
        assert forall i | 0 <= i < |items| - 1 :: items[1..][i] == items[i + 1];
        if |xs| == |items| && forall i | 0 <= i < |items| :: f(items[i]) == Ok(xs[i]) {
          assert f(items[0]) == Ok(xs[0]);
          assert forall i | 0 <= i < |items| - 1 :: f(items[1..][i]) == Ok(xs[1..][i]);
        }
        if Traverse(items, f) == Ok(xs) {
          forall i | 0 <= i < |items| ensures f(items[i]) == Ok(xs[i]) {
            if i > 0 { assert items[1..][i - 1] == items[i] && xs[1..][i - 1] == xs[i]; }
          }
        }
      }
    }
  }

  lemma {:induction false} PortsIff(o: Fields, ports: seq<NamedPort>)
    ensures MapPorts(o) == Ok(ports) <==> ReadsPorts(o, ports)
  {
    forall items ensures ArrGet(o, "ports") == Ok(items) <==> ListAt(o, "ports", items) {
      ListIff(o, "ports", items);
    }
    if ArrGet(o, "ports").Ok? {
      var items := ArrGet(o, "ports").value;
      TraverseIff(items, MapPort, ports);
      forall i | 0 <= i < |items| && |items| == |ports|
        ensures MapPort(items[i]) == Ok(ports[i]) <==> ReadsPort(items[i], ports[i])
      {
        PortIff(items[i], ports[i]);
      }
    }
  }

  lemma {:induction false} EndpointIff(o: Fields, e: McpEndpoint)
    ensures MapEndpoint(o) == Ok(e) <==> ReadsEndpointAt(o, e)
  {
    forall sub ensures ObjGet(o, "mcpEndpoint") == Ok(sub) <==> ObjectAt(o, "mcpEndpoint", sub) {
      ObjectIff(o, "mcpEndpoint", sub);
    }
    if ObjGet(o, "mcpEndpoint").Ok? {
      var sub := ObjGet(o, "mcpEndpoint").value;
      if "portName" in sub { SaysIs(sub["portName"], e.portName); }
      if "path" in sub { SaysIs(sub["path"], e.path); }
    }
  }

  lemma {:induction false} EnvItemsIff(items: seq<Json>, env: seq<(string, string)>)
    ensures MapEnv(items) == Ok(env) <==> ReadsEnv(items, env)
    decreases |items|
  {
    if items != [] && items[0].Obj? {
      var o := items[0].fields;
      if "name" !in o {
        EnvItemsIff(items[1..], env);
      } else if env != [] {
        EnvItemsIff(items[1..], env[1..]);
        SaysIs(o["name"], env[0].0);
        if "value" in o { SaysIs(o["value"], env[0].1); }
        assert env == [env[0]] + env[1..] && env[0] == (env[0].0, env[0].1);
      }
    }
  }

  lemma {:induction false} EnvIff(o: Fields, env: seq<(string, string)>)
    ensures MapEnvOf(o) == Ok(env) <==> ReadsEnvAt(o, env)
  {
    forall items ensures ArrGet(o, "env") == Ok(items) <==> ListAt(o, "env", items) {
      ListIff(o, "env", items);
    }
    if ArrGet(o, "env").Ok? { EnvItemsIff(ArrGet(o, "env").value, env); }
  }

  lemma {:induction false} PeerIff(namespace: string, o: Fields, peer: GatewayKey)
    ensures (&& Truthy(Get(o, "name")) && StrOr(o, "namespace", namespace) == Ok(peer.namespace)
             && PyStr(Get(o, "name")) == Ok(peer.name))
       <==> ReadsPeer(namespace, o, peer)
  {
    if "name" in o {
      TruthIs(o["name"]);
      SaysIs(o["name"], peer.name);
    }
    if "namespace" in o {
      TruthIs(o["namespace"]);
      SaysIs(o["namespace"], peer.namespace);
    }
  }

  lemma {:induction false} TrueTextIff(o: Fields, k: string, default: string, s: string)
    ensures StrOr(o, k, default) == Ok(s) <==> TrueTextOr(o, k, default, s)
  {
    if k in o {
      TruthIs(o[k]);
      SaysIs(o[k], s);
    }
  }

  lemma {:induction false} ProxyPortIff(o: Fields, n: int)
    ensures (if Truthy(Get(o, "port")) then PyInt(Get(o, "port")) else Ok(8080)) == Ok(n)
       <==> ReadsProxyPort(o, n)
  {
    if "port" in o {
      TruthIs(o["port"]);
      CountsIs(o["port"], n);
    }
  }

  predicate ReadsProxyOver(namespace: string, o: Fields, sub: Fields, peer: GatewayKey, path: string, port: int,
                           bearer: Option<SecretRef>) {
    && ReadsPeer(namespace, sub, peer) && TrueTextOr(o, "path", "/mcp-proxy", path)
    && ReadsProxyPort(o, port) && ReadsBearer(o, bearer)
  }

  lemma {:induction false} ProxyOverIff(namespace: string, o: Fields, sub: Fields, peer: GatewayKey, path: string,
                                        port: int, bearer: Option<SecretRef>)
    requires ObjGet(o, "peerGatewayRef") == Ok(sub)
    ensures MapProxy(namespace, o) == Ok(VmcpProxy(peer, path, port, bearer))
       <==> ReadsProxyOver(namespace, o, sub, peer, path, port, bearer)
  {
    PeerIff(namespace, sub, peer);
    TrueTextIff(o, "path", "/mcp-proxy", path);
    ProxyPortIff(o, port);
    BearerIff(o, bearer);
  }

  lemma {:induction false} ProxyIff(namespace: string, o: Fields, peer: GatewayKey, path: string, port: int,
                                    bearer: Option<SecretRef>)
    ensures MapProxy(namespace, o) == Ok(VmcpProxy(peer, path, port, bearer)) <==>
            exists sub :: ObjectAt(o, "peerGatewayRef", sub)
                          && ReadsProxyOver(namespace, o, sub, peer, path, port, bearer)
  {
    forall sub ensures ObjGet(o, "peerGatewayRef") == Ok(sub) <==> ObjectAt(o, "peerGatewayRef", sub) {
      ObjectIff(o, "peerGatewayRef", sub);
    }
    if ObjGet(o, "peerGatewayRef").Ok? {
      ProxyOverIff(namespace, o, ObjGet(o, "peerGatewayRef").value, peer, path, port, bearer);
    }
  }

  lemma {:induction false} RemoteIff(o: Fields, url: string, bearer: Option<SecretRef>)
    ensures MapRemoteHttp(o) == Ok(RemoteHttp(url, bearer)) <==> TextAt(o, "url", url) && ReadsBearer(o, bearer)
  {
    if "url" in o { SaysIs(o["url"], url); }
    BearerIff(o, bearer);
  }

  lemma {:induction false} ContainerIff(o: Fields, image: string, ports: seq<NamedPort>, endpoint: McpEndpoint,
                                        env: seq<(string, string)>)
    ensures MapContainer(o) == Ok(ContainerImage(image, ports, endpoint, env)) <==>
            TextAt(o, "image", image) && ReadsPorts(o, ports) && ReadsEndpointAt(o, endpoint) && ReadsEnvAt(o, env)
  {
    if "image" in o { SaysIs(o["image"], image); }
    PortsIff(o, ports);
    EndpointIff(o, endpoint);
    EnvIff(o, env);
  }

  lemma {:induction false} SourceForms(namespace: string, o: Fields, s: Source)
    ensures MapRemoteHttp(o) == Ok(s) ==> s.RemoteHttp?
    ensures MapContainer(o) == Ok(s) ==> s.ContainerImage?
    ensures MapProxy(namespace, o) == Ok(s) ==> s.VmcpProxy?
  {
  }

  lemma {:induction false} SourceByType(namespace: string, spec: Fields, s: Source)
    requires "source" in spec && spec["source"].Obj?
    ensures var o := spec["source"].fields;
            MapSource(namespace, spec) == Ok(s)
            <==> "type" in o && match s
                                case RemoteHttp(_, _) => o["type"] == Str("RemoteHttp") && MapRemoteHttp(o) == Ok(s)
                                case ContainerImage(_, _, _, _) =>
                                  o["type"] == Str("ContainerImage") && MapContainer(o) == Ok(s)
                                case VmcpProxy(_, _, _, _) =>
                                  o["type"] == Str("VmcpProxy") && MapProxy(namespace, o) == Ok(s)
  {
    SourceForms(namespace, spec["source"].fields, s);
  }

  lemma {:induction false} SourceIff(namespace: string, spec: Fields, s: Source)
    ensures MapSource(namespace, spec) == Ok(s) <==>
            "source" in spec && spec["source"].Obj? && ReadsSource(namespace, spec["source"].fields, s)
  {
    if "source" in spec && spec["source"].Obj? {
      var o := spec["source"].fields;
      SourceByType(namespace, spec, s);
      match s
      case RemoteHttp(url, bearer) => RemoteIff(o, url, bearer);
      case ContainerImage(image, ports, endpoint, env) => ContainerIff(o, image, ports, endpoint, env);
      case VmcpProxy(peer, path, port, bearer) => ProxyIff(namespace, o, peer, path, port, bearer);
    }
  }

  // ---------------------------------------------------------------- the lists of a spec

  lemma {:induction false} OptionalIff(o: Fields, k: string, v: Option<string>)
    ensures OptGet(o, k) == Ok(v) <==> OptionalAt(o, k, v)
  {
  }

  lemma {:induction false} OverrideIff(j: Json, ov: ToolOverride)
    ensures MapOverride(j) == Ok(ov) <==> ReadsOverride(j, ov)
  {
    if j.Obj? {
      var o := j.fields;
      if "name" in o { SaysIs(o["name"], ov.name); }
      if "readOnly" in o { TruthIs(o["readOnly"]); }
      OptionalIff(o, "taskSupport", ov.taskSupport);
    }
  }

  lemma {:induction false} SkillIff(j: Json, r: SkillRef)
    ensures MapSkillRef(j) == Ok(r) <==> ReadsSkill(j, r)
  {
    if j.Obj? {
      if "name" in j.fields { SaysIs(j.fields["name"], r.name); }
      OptionalIff(j.fields, "key", r.key);
    }
  }

  predicate ReadsParentAt(o: Fields, p: Option<ParentRef>) {
    if "gatewayRef" in o && !Falsy(o["gatewayRef"])
    then p.Some? && o["gatewayRef"].Obj? && ReadsParent(o["gatewayRef"].fields, p.value)
    else p == None
  }

  lemma {:induction false} ParentIff(o: Fields, p: Option<ParentRef>)
    ensures MapParentRef(o) == Ok(p) <==> ReadsParentAt(o, p)
  {
    if "gatewayRef" in o {
      TruthIs(o["gatewayRef"]);
      if o["gatewayRef"].Obj? && p.Some? {
        var sub := o["gatewayRef"].fields;
        if "name" in sub { SaysIs(sub["name"], p.value.name); }
        OptionalIff(sub, "namespace", p.value.namespace);
        OptionalIff(sub, "sectionName", p.value.sectionName);
      }
    }
  }

  /** Sorted pairs are the items of the dict they were read from. */
  lemma {:induction false} PairsAreItems(d: map<string, string>, pairs: seq<(string, string)>)
    ensures Items(d) == pairs <==>
            && StrictlySorted(Firsts(pairs)) && (forall k :: k in d <==> k in Firsts(pairs))
            && forall i | 0 <= i < |pairs| :: pairs[i].0 in d && d[pairs[i].0] == pairs[i].1
  {
    DictOfItems(d);
    ToDictKeys(pairs);
    ToDictKeys(Items(d));
    if StrictlySorted(Firsts(pairs)) && (forall k :: k in d <==> k in Firsts(pairs))
       && forall i | 0 <= i < |pairs| :: pairs[i].0 in d && d[pairs[i].0] == pairs[i].1 {
      ItemsOfDict(pairs);
      forall k | k in d ensures k in ToDict(pairs) && ToDict(pairs)[k] == d[k] {
        var i :| 0 <= i < |pairs| && Firsts(pairs)[i] == k;
        assert pairs[i].0 == k;
      }
      assert ToDict(pairs) == d;
    }
  }

  predicate AllPlain(a: Fields) {
    forall k | k in a :: Plain(a[k])
  }

  function Texts(a: Fields): map<string, string>
    requires AllPlain(a)
  {
    map k | k in a :: (SaysIs(a[k], ""); PyStr(a[k]).value)
  }

  lemma {:induction false} PairSays(a: Fields, pairs: seq<(string, string)>, i: nat)
    requires AllPlain(a) && i < |pairs|
    ensures TextAt(a, pairs[i].0, pairs[i].1) <==> pairs[i].0 in Texts(a) && Texts(a)[pairs[i].0] == pairs[i].1
  {
    if pairs[i].0 in a { SaysIs(a[pairs[i].0], pairs[i].1); }
  }

  lemma {:induction false} NamedArePlain(a: Fields, pairs: seq<(string, string)>)
    requires ReadsAnnotations(a, pairs)
    ensures AllPlain(a)
  {
    forall k | k in a ensures Plain(a[k]) {
      assert k in Firsts(pairs);
      var i :| 0 <= i < |pairs| && Firsts(pairs)[i] == k;
      assert TextAt(a, pairs[i].0, pairs[i].1);
      SaysIs(a[k], pairs[i].1);
    }
  }

  lemma {:induction false} AnnotationsOver(a: Fields, pairs: seq<(string, string)>)
    ensures AllPlain(a) && Items(Texts(a)) == pairs <==> ReadsAnnotations(a, pairs)
  {
    if ReadsAnnotations(a, pairs) { NamedArePlain(a, pairs); }
    if AllPlain(a) {
      PairsAreItems(Texts(a), pairs);
      forall i | 0 <= i < |pairs|
        ensures TextAt(a, pairs[i].0, pairs[i].1)
           <==> pairs[i].0 in Texts(a) && Texts(a)[pairs[i].0] == pairs[i].1
      {
        PairSays(a, pairs, i);
      }
    }
  }

  lemma {:induction false} AnnotationsIff(o: Fields, pairs: seq<(string, string)>)
    ensures MapAnnotations(o) == Ok(pairs)
       <==> exists sub :: ObjectAt(o, "annotations", sub) && ReadsAnnotations(sub, pairs)
  {
    forall sub ensures ObjGet(o, "annotations") == Ok(sub) <==> ObjectAt(o, "annotations", sub) {
      ObjectIff(o, "annotations", sub);
    }
    if ObjGet(o, "annotations").Ok? {
      var a := ObjGet(o, "annotations").value;
      AnnotationsOver(a, pairs);
      forall k | k in a ensures PyStr(a[k]).Ok? <==> Plain(a[k]) { SaysIs(a[k], ""); }
      if AllPlain(a) { assert Texts(a) == map k | k in a :: PyStr(a[k]).value; }
    }
  }

  ghost predicate ReadsExposure(j: Json, e: WebExposure) {
    && j.Obj?
    && var o := j.fields;
       && TextAt(o, "name", e.name) && TextAt(o, "portName", e.portName) && TextAt(o, "hostname", e.hostname)
       && (exists items :: ListAt(o, "paths", items) && |items| == |e.paths|
                           && forall i | 0 <= i < |items| :: Says(items[i], e.paths[i]))
       && ReadsParentAt(o, e.gatewayRef) && OptionalAt(o, "publicBaseUrlEnv", e.publicBaseUrlEnv)
       && (exists sub :: ObjectAt(o, "annotations", sub) && ReadsAnnotations(sub, e.annotations))
  }

  lemma {:induction false} PathsIff(o: Fields, paths: seq<string>)
    ensures ArrGet(o, "paths").Ok? && Traverse(ArrGet(o, "paths").value, PyStr) == Ok(paths) <==>
            exists items :: ListAt(o, "paths", items) && |items| == |paths|
                            && forall i | 0 <= i < |items| :: Says(items[i], paths[i])
  {
    forall items ensures ArrGet(o, "paths") == Ok(items) <==> ListAt(o, "paths", items) {
      ListIff(o, "paths", items);
    }
    if ArrGet(o, "paths").Ok? {
      var items := ArrGet(o, "paths").value;
      TraverseIff(items, PyStr, paths);
      forall i | 0 <= i < |items| && |items| == |paths|
        ensures PyStr(items[i]) == Ok(paths[i]) <==> Says(items[i], paths[i])
      {
        SaysIs(items[i], paths[i]);
      }
    }
  }

  lemma {:induction false} ExposureIff(j: Json, e: WebExposure)
    ensures MapWebExposure(j) == Ok(e) <==> ReadsExposure(j, e)
  {
    if j.Obj? {
      var o := j.fields;
      if "name" in o { SaysIs(o["name"], e.name); }
      if "portName" in o { SaysIs(o["portName"], e.portName); }
      if "hostname" in o { SaysIs(o["hostname"], e.hostname); }
      PathsIff(o, e.paths);
      ParentIff(o, e.gatewayRef);
      OptionalIff(o, "publicBaseUrlEnv", e.publicBaseUrlEnv);
      AnnotationsIff(o, e.annotations);
    }
  }

  // ---------------------------------------------------------------- the record

  ghost predicate ReadsOverrides(spec: Fields, ovs: seq<ToolOverride>) {
    exists items :: ListAt(spec, "toolOverrides", items) && |items| == |ovs|
                    && forall i | 0 <= i < |items| :: ReadsOverride(items[i], ovs[i])
  }

  ghost predicate ReadsSkills(spec: Fields, refs: seq<SkillRef>) {
    exists items :: ListAt(spec, "skillRefs", items) && |items| == |refs|
                    && forall i | 0 <= i < |items| :: ReadsSkill(items[i], refs[i])
  }

  ghost predicate ReadsExposures(spec: Fields, exps: seq<WebExposure>) {
    exists items :: ListAt(spec, "webExposures", items) && |items| == |exps|
                    && forall i | 0 <= i < |items| :: ReadsExposure(items[i], exps[i])
  }

  lemma {:induction false} OverridesIff(spec: Fields, ovs: seq<ToolOverride>)
    ensures MapList(spec, "toolOverrides", MapOverride) == Ok(ovs) <==> ReadsOverrides(spec, ovs)
  {
    forall items ensures ArrGet(spec, "toolOverrides") == Ok(items) <==> ListAt(spec, "toolOverrides", items) {
      ListIff(spec, "toolOverrides", items);
    }
    if ArrGet(spec, "toolOverrides").Ok? {
      var items := ArrGet(spec, "toolOverrides").value;
      TraverseIff(items, MapOverride, ovs);
      forall i | 0 <= i < |items| && |items| == |ovs|
        ensures MapOverride(items[i]) == Ok(ovs[i]) <==> ReadsOverride(items[i], ovs[i])
      {
        OverrideIff(items[i], ovs[i]);
      }
    }
  }

  lemma {:induction false} SkillsIff(spec: Fields, refs: seq<SkillRef>)
    ensures MapList(spec, "skillRefs", MapSkillRef) == Ok(refs) <==> ReadsSkills(spec, refs)
  {
    forall items ensures ArrGet(spec, "skillRefs") == Ok(items) <==> ListAt(spec, "skillRefs", items) {
      ListIff(spec, "skillRefs", items);
    }
    if ArrGet(spec, "skillRefs").Ok? {
      var items := ArrGet(spec, "skillRefs").value;
      TraverseIff(items, MapSkillRef, refs);
      forall i | 0 <= i < |items| && |items| == |refs|
        ensures MapSkillRef(items[i]) == Ok(refs[i]) <==> ReadsSkill(items[i], refs[i])
      {
        SkillIff(items[i], refs[i]);
      }
    }
  }

  lemma {:induction false} ExposuresIff(spec: Fields, exps: seq<WebExposure>)
    ensures MapList(spec, "webExposures", MapWebExposure) == Ok(exps) <==> ReadsExposures(spec, exps)
  {
    forall items ensures ArrGet(spec, "webExposures") == Ok(items) <==> ListAt(spec, "webExposures", items) {
      ListIff(spec, "webExposures", items);
    }
    if ArrGet(spec, "webExposures").Ok? {
      var items := ArrGet(spec, "webExposures").value;
      TraverseIff(items, MapWebExposure, exps);
      forall i | 0 <= i < |items| && |items| == |exps|
        ensures MapWebExposure(items[i]) == Ok(exps[i]) <==> ReadsExposure(items[i], exps[i])
      {
        ExposureIff(items[i], exps[i]);
      }
    }
  }

  /** The record that a spec describes. */
  ghost predicate Reads(namespace: string, name: string, spec: Fields, m: Mcp) {
    && m.namespace == namespace && m.name == name && m.gateway.namespace == namespace
    && "gatewayRef" in spec && spec["gatewayRef"].Obj? && TextAt(spec["gatewayRef"].fields, "name", m.gateway.name)
    && SwitchOr(spec, "enabled", true, m.enabled) && SwitchOr(spec, "forwardIdentity", false, m.forwardIdentity)
    && OptionalAt(spec, "description", m.description)
    && "source" in spec && spec["source"].Obj? && ReadsSource(namespace, spec["source"].fields, m.source)
    && ReadsOverrides(spec, m.toolOverrides) && ReadsSkills(spec, m.skillRefs) && ReadsExposures(spec, m.webExposures)
  }

  lemma {:induction false} GatewayIff(spec: Fields, g: string)
    ensures MapGatewayName(spec) == Ok(g) <==>
            "gatewayRef" in spec && spec["gatewayRef"].Obj? && TextAt(spec["gatewayRef"].fields, "name", g)
  {
    if "gatewayRef" in spec && spec["gatewayRef"].Obj? && "name" in spec["gatewayRef"].fields {
      SaysIs(spec["gatewayRef"].fields["name"], g);
    }
  }

  /** The parts of a record, each from its own keys. */
  lemma {:induction false} PartByPart(namespace: string, name: string, spec: Fields, m: Mcp)
    ensures MapMcp(namespace, name, spec) == Ok(m) <==>
              && m.namespace == namespace && m.name == name && m.gateway == GatewayKey(namespace, m.gateway.name)
              && MapGatewayName(spec) == Ok(m.gateway.name) && MapSource(namespace, spec) == Ok(m.source)
              && m.enabled == BoolGet(spec, "enabled", true)
              && m.forwardIdentity == BoolGet(spec, "forwardIdentity", false)
              && OptGet(spec, "description") == Ok(m.description)
              && MapList(spec, "toolOverrides", MapOverride) == Ok(m.toolOverrides)
              && MapList(spec, "skillRefs", MapSkillRef) == Ok(m.skillRefs)
              && MapList(spec, "webExposures", MapWebExposure) == Ok(m.webExposures)
  {
  }

  lemma {:induction false} SwitchIff(o: Fields, k: string, default: bool, b: bool)
    ensures b == BoolGet(o, k, default) <==> SwitchOr(o, k, default, b)
  {
    if k in o { TruthIs(o[k]); }
  }

  /** `map_mcp` gives a record exactly when the spec describes it. */
  lemma {:induction false} MapMcpIff(namespace: string, name: string, spec: Fields, m: Mcp)
    ensures MapMcp(namespace, name, spec) == Ok(m) <==> Reads(namespace, name, spec, m)
  {
    PartByPart(namespace, name, spec, m);
    SourceIff(namespace, spec, m.source);
    GatewayIff(spec, m.gateway.name);
    OptionalIff(spec, "description", m.description);
    OverridesIff(spec, m.toolOverrides);
    SkillsIff(spec, m.skillRefs);
    ExposuresIff(spec, m.webExposures);
    SwitchIff(spec, "enabled", true, m.enabled);
    SwitchIff(spec, "forwardIdentity", false, m.forwardIdentity);
  }
}
