/** What `map_mcp` after `mcp_to_crd` does to every record: the exact normal form. */
module McpCodecRoundTrip {
  import opened Common
  import opened McpCodec

  // ---------------------------------------------------------------- normal form

  /** Printing drops an optional string that is empty. */
  function NormOpt(v: Option<string>): Option<string> {
    if v == Some("") then None else v
  }

  function NormBearer(b: Option<SecretRef>): Option<SecretRef> {
    if b.Some? then Some(b.value.(writable := false)) else None
  }

  function NormSource(namespace: string, source: Source): Source {
    match source
    case RemoteHttp(url, bearer) => RemoteHttp(url, NormBearer(bearer))
    case ContainerImage(_, _, _, _) => source
    case VmcpProxy(peer, path, port, bearer) =>
      VmcpProxy(if peer.namespace == "" then peer.(namespace := namespace) else peer,
                if path == "" then "/mcp-proxy" else path,
                if port == 0 then 8080 else port,
                NormBearer(bearer))
  }

  function NormOverride(ov: ToolOverride): ToolOverride {
    ov.(taskSupport := NormOpt(ov.taskSupport))
  }

  function NormSkillRef(r: SkillRef): SkillRef {
    r.(key := NormOpt(r.key))
  }

  function NormExposure(e: WebExposure): WebExposure {
    e.(gatewayRef := if e.gatewayRef.Some?
                     then Some(ParentRef(e.gatewayRef.value.name, NormOpt(e.gatewayRef.value.namespace),
                                         NormOpt(e.gatewayRef.value.sectionName)))
                     else None,
       annotations := Items(ToDict(e.annotations)),
       publicBaseUrlEnv := NormOpt(e.publicBaseUrlEnv))
  }

  function Normalize(m: Mcp): Mcp {
    m.(source := NormSource(m.namespace, m.source),
       toolOverrides := MapSeq(NormOverride, m.toolOverrides),
       skillRefs := MapSeq(NormSkillRef, m.skillRefs),
       webExposures := MapSeq(NormExposure, m.webExposures))
  }

  // ---------------------------------------------------------------- canonical records

  predicate NonEmpty(v: Option<string>) {
    v != Some("")
  }

  predicate ReadOnlyRef(b: Option<SecretRef>) {
    b.Some? ==> !b.value.writable
  }

  ghost predicate CanonicalSource(namespace: string, source: Source) {
    match source
    case RemoteHttp(_, bearer) => ReadOnlyRef(bearer)
    case ContainerImage(_, _, _, _) => true
    case VmcpProxy(peer, path, port, bearer) =>
      peer.name != "" && (peer.namespace == "" ==> namespace == "") && path != "" && port != 0 && ReadOnlyRef(bearer)
  }

  ghost predicate CanonicalExposure(e: WebExposure) {
    && (e.gatewayRef.Some? ==> NonEmpty(e.gatewayRef.value.namespace) && NonEmpty(e.gatewayRef.value.sectionName))
    && StrictlySorted(Firsts(e.annotations))
    && NonEmpty(e.publicBaseUrlEnv)
  }

  /** Read-only secret refs, non-empty optional strings, sorted annotations, a real port and peer. */
  ghost predicate Canonical(m: Mcp) {
    && CanonicalSource(m.namespace, m.source)
    && (forall i | 0 <= i < |m.toolOverrides| :: NonEmpty(m.toolOverrides[i].taskSupport))
    && (forall i | 0 <= i < |m.skillRefs| :: NonEmpty(m.skillRefs[i].key))
    && (forall i | 0 <= i < |m.webExposures| :: CanonicalExposure(m.webExposures[i]))
  }

  // ---------------------------------------------------------------- parts

  function Same<T>(x: T): T { x }

  /** Parsing a printed list parses each printed element. */
  lemma {:induction false} TraversePrinted<T, U>(xs: seq<T>, print_: T -> Json, parse: Json -> Res<U>, norm: T -> U)
    requires forall i | 0 <= i < |xs| :: parse(print_(xs[i])) == Ok(norm(xs[i]))
    ensures Traverse(MapSeq(print_, xs), parse) == Ok(MapSeq(norm, xs))
  {
    var js := MapSeq(print_, xs);
    if xs == [] {
      assert js == [] && MapSeq(norm, xs) == [];
    } else {
      assert js[1..] == MapSeq(print_, xs[1..]);
      TraversePrinted(xs[1..], print_, parse, norm);
      assert MapSeq(norm, xs) == [norm(xs[0])] + MapSeq(norm, xs[1..]);
    }
  }

  lemma {:induction false} BearerPrinted(base: map<string, Json>, bearer: Option<SecretRef>)
    requires "bearerSecretRef" !in base
    ensures MapBearer(base + BearerJson(bearer)) == Ok(NormBearer(bearer))
  {
    if bearer.Some? {
      var o := map["name" := Str(bearer.value.name), "key" := Str(bearer.value.key)];
      assert "name" in o;
      assert Get(base + BearerJson(bearer), "bearerSecretRef") == Obj(o);
    } else {
      assert base + BearerJson(bearer) == base;
    }
  }

  lemma {:induction false} PortPrinted(p: NamedPort)
    ensures MapPort(PortJson(p)) == Ok(p)
  {
  }

  lemma {:induction false} EnvPrinted(env: seq<(string, string)>)
    ensures MapEnv(MapSeq(EnvJson, env)) == Ok(env)
  {
    var js := MapSeq(EnvJson, env);
    if env != [] {
      assert js[1..] == MapSeq(EnvJson, env[1..]);
      EnvPrinted(env[1..]);
      assert env == [env[0]] + env[1..];
      assert js[0] == EnvJson(env[0]);
    }
  }

  lemma {:induction false} RemotePrinted(namespace: string, source: Source)
    requires source.RemoteHttp?
    ensures MapRemoteHttp(SourceJson(namespace, source)) == Ok(NormSource(namespace, source))
  {
    BearerPrinted(map["type" := Str("RemoteHttp"), "url" := Str(source.url)], source.bearer);
  }

  lemma {:induction false} ContainerPrinted(namespace: string, source: Source)
    requires source.ContainerImage?
    ensures MapContainer(SourceJson(namespace, source)) == Ok(source)
  {
    var j := SourceJson(namespace, source);
    var ports := MapSeq(PortJson, source.ports);
    assert Get(j, "ports") == Arr(ports);
    assert MapPorts(j) == Ok(source.ports) by {
      forall i | 0 <= i < |source.ports| ensures MapPort(PortJson(source.ports[i])) == Ok(Same(source.ports[i])) {
        PortPrinted(source.ports[i]);
      }
      TraversePrinted(source.ports, PortJson, MapPort, Same);
      assert MapSeq(Same, source.ports) == source.ports;
    }
    var ep := map["portName" := Str(source.endpoint.portName), "path" := Str(source.endpoint.path)];
    assert "path" in ep;
    assert Get(j, "mcpEndpoint") == Obj(ep);
    assert MapEndpoint(j) == Ok(source.endpoint);
    assert MapEnvOf(j) == Ok(source.env) by {
      EnvPrinted(source.env);
      if source.env != [] {
        assert Get(j, "env") == Arr(MapSeq(EnvJson, source.env));
      } else {
        assert "env" !in j;
      }
    }
  }

  lemma {:induction false} ProxyPrinted(namespace: string, source: Source)
    requires source.VmcpProxy?
    ensures MapProxy(namespace, SourceJson(namespace, source))
         == if source.peer.name == "" then Err(ValueError) else Ok(NormSource(namespace, source))
  {
    var j := SourceJson(namespace, source);
    BearerPrinted(map["type" := Str("VmcpProxy"), "peerGatewayRef" := PeerJson(namespace, source.peer),
                      "path" := Str(source.path), "port" := Num(source.port)], source.bearer);
    var peer := PeerJson(namespace, source.peer).fields;
    assert "name" in peer;
    assert Get(j, "peerGatewayRef") == Obj(peer);
    assert ObjGet(j, "peerGatewayRef") == Ok(peer);
    assert Get(peer, "name") == Str(source.peer.name);
  }

  lemma {:induction false} SourceType(namespace: string, source: Source)
    ensures var j := SourceJson(namespace, source);
            && "type" in j
            && j["type"] == Str(match source
                                case RemoteHttp(_, _) => "RemoteHttp"
                                case ContainerImage(_, _, _, _) => "ContainerImage"
                                case VmcpProxy(_, _, _, _) => "VmcpProxy")
  {
    match source {
      case RemoteHttp(_, bearer) => assert "type" !in BearerJson(bearer);
      case ContainerImage(_, _, _, _) =>
      case VmcpProxy(_, _, _, bearer) => assert "type" !in BearerJson(bearer);
    }
  }

  /** `MapSource` dispatches on the type tag. */
  lemma {:induction false} Dispatch(namespace: string, spec: map<string, Json>, j: map<string, Json>)
    requires "source" in spec && spec["source"] == Obj(j) && "type" in j
    ensures j["type"] == Str("RemoteHttp") ==> MapSource(namespace, spec) == MapRemoteHttp(j)
    ensures j["type"] == Str("ContainerImage") ==> MapSource(namespace, spec) == MapContainer(j)
    ensures j["type"] == Str("VmcpProxy") ==> MapSource(namespace, spec) == MapProxy(namespace, j)
  {
    assert |"RemoteHttp"| == 10 && |"ContainerImage"| == 14 && |"VmcpProxy"| == 9;
  }

  lemma {:induction false} SourcePrinted(namespace: string, spec: map<string, Json>, source: Source)
    requires "source" in spec && spec["source"] == Obj(SourceJson(namespace, source))
    ensures MapSource(namespace, spec)
         == if source.VmcpProxy? && source.peer.name == "" then Err(ValueError) else Ok(NormSource(namespace, source))
  {
    SourceType(namespace, source);
    Dispatch(namespace, spec, SourceJson(namespace, source));
    match source {
      case RemoteHttp(_, _) => RemotePrinted(namespace, source);
      case ContainerImage(_, _, _, _) => ContainerPrinted(namespace, source);
      case VmcpProxy(_, _, _, _) => ProxyPrinted(namespace, source);
    }
  }

  lemma {:induction false} OverridePrinted(ov: ToolOverride)
    ensures MapOverride(OverrideJson(ov)) == Ok(NormOverride(ov))
  {
    var o := OverrideJson(ov).fields;
    assert OptGet(o, "taskSupport") == Ok(NormOpt(ov.taskSupport));
  }

  lemma {:induction false} SkillRefPrinted(r: SkillRef)
    ensures MapSkillRef(SkillRefJson(r)) == Ok(NormSkillRef(r))
  {
    var o := SkillRefJson(r).fields;
    assert OptGet(o, "key") == Ok(NormOpt(r.key));
  }

  lemma {:induction false} DictRestored(d: map<string, string>)
    ensures var a := DictJson(d).fields;
            && (forall k | k in a :: PyStr(a[k]).Ok?) && (map k | k in a :: PyStr(a[k]).value) == d
  {
  }

  lemma {:induction false} DictNotEmpty(pairs: seq<(string, string)>)
    requires pairs != []
    ensures Truthy(DictJson(ToDict(pairs)))
  {
    ToDictKeys(pairs);
    assert Firsts(pairs)[0] in ToDict(pairs);
    assert Firsts(pairs)[0] in DictJson(ToDict(pairs)).fields;
  }

  lemma {:induction false} AnnotationsPrinted(o: map<string, Json>, pairs: seq<(string, string)>)
    requires Get(o, "annotations") == if pairs == [] then Null else DictJson(ToDict(pairs))
    ensures MapAnnotations(o) == Ok(Items(ToDict(pairs)))
  {
    DictRestored(ToDict(pairs));
    if pairs == [] {
      assert ToDict(pairs) == map[];
      assert ObjGet(o, "annotations") == Ok(DictJson(ToDict(pairs)).fields);
    } else {
      DictNotEmpty(pairs);
    }
  }

  lemma {:induction false} ParentRefPrinted(o: map<string, Json>, r: ParentRef)
    requires Get(o, "gatewayRef") == ParentRefJson(r)
    ensures MapParentRef(o) == Ok(Some(ParentRef(r.name, NormOpt(r.namespace), NormOpt(r.sectionName))))
  {
    var f := ParentRefJson(r).fields;
    assert "name" in f;
    assert OptGet(f, "namespace") == Ok(NormOpt(r.namespace));
    assert OptGet(f, "sectionName") == Ok(NormOpt(r.sectionName));
  }

  lemma {:induction false} PathsPrinted(paths: seq<string>)
    ensures Traverse(MapSeq((s: string) => Str(s), paths), PyStr) == Ok(paths)
  {
    TraversePrinted(paths, (s: string) => Str(s), PyStr, Same);
    assert MapSeq(Same, paths) == paths;
  }

  /** Reading a key through a dict that was extended without it, or with it. */
  lemma {:induction false} Through(a: map<string, Json>, b: map<string, Json>, k: string)
    ensures Get(a + b, k) == if k in b then b[k] else Get(a, k)
    ensures k in a + b <==> k in a || k in b
  {
  }

  function ExposureBase(e: WebExposure): map<string, Json> {
    map["name" := Str(e.name), "portName" := Str(e.portName), "hostname" := Str(e.hostname),
        "paths" := Arr(MapSeq((s: string) => Str(s), e.paths))]
  }

  function ExposureRef(e: WebExposure): map<string, Json> {
    if e.gatewayRef.Some? then map["gatewayRef" := ParentRefJson(e.gatewayRef.value)] else map[]
  }

  function ExposureAnnotations(e: WebExposure): map<string, Json> {
    if e.annotations != [] then map["annotations" := DictJson(ToDict(e.annotations))] else map[]
  }

  lemma {:induction false} ExposureKey(e: WebExposure, k: string)
    ensures var o := ExposureJson(e).fields;
            var env := Optional("publicBaseUrlEnv", e.publicBaseUrlEnv);
            && (k in env ==> Get(o, k) == env[k])
            && (k !in env && k in ExposureAnnotations(e) ==> Get(o, k) == ExposureAnnotations(e)[k])
            && (k !in env && k !in ExposureAnnotations(e) && k in ExposureRef(e) ==> Get(o, k) == ExposureRef(e)[k])
            && (k !in env && k !in ExposureAnnotations(e) && k !in ExposureRef(e) ==>
                  Get(o, k) == Get(ExposureBase(e), k) && (k in o <==> k in ExposureBase(e)))
  {
    var env := Optional("publicBaseUrlEnv", e.publicBaseUrlEnv);
    assert ExposureJson(e).fields == ExposureBase(e) + ExposureRef(e) + ExposureAnnotations(e) + env by {
      assert MapSeq(s => Str(s), e.paths) == MapSeq((s: string) => Str(s), e.paths);
    }
    Through(ExposureBase(e), ExposureRef(e), k);
    Through(ExposureBase(e) + ExposureRef(e), ExposureAnnotations(e), k);
    Through(ExposureBase(e) + ExposureRef(e) + ExposureAnnotations(e), env, k);
  }

  lemma {:induction false} ExposureNames(e: WebExposure, k: string)
    requires k == "name" || k == "portName" || k == "hostname" || k == "paths"
    ensures var o := ExposureJson(e).fields;
            k in o && k in ExposureBase(e) && o[k] == ExposureBase(e)[k]
  {
    ExposureKey(e, k);
  }

  /** The fields of a printed exposure, key by key. */
  lemma {:induction false} ExposureFields(e: WebExposure)
    ensures var o := ExposureJson(e).fields;
            && "name" in o && o["name"] == Str(e.name)
            && "portName" in o && o["portName"] == Str(e.portName)
            && "hostname" in o && o["hostname"] == Str(e.hostname)
            && Get(o, "paths") == Arr(MapSeq((s: string) => Str(s), e.paths))
  {
    ExposureNames(e, "name");
    ExposureNames(e, "portName");
    ExposureNames(e, "hostname");
    ExposureNames(e, "paths");
  }

  lemma {:induction false} ExposureOptions(e: WebExposure)
    ensures var o := ExposureJson(e).fields;
            && Get(o, "gatewayRef") == (if e.gatewayRef.Some? then ParentRefJson(e.gatewayRef.value) else Null)
            && Get(o, "annotations") == (if e.annotations == [] then Null else DictJson(ToDict(e.annotations)))
            && OptGet(o, "publicBaseUrlEnv") == Ok(NormOpt(e.publicBaseUrlEnv))
  {
    ExposureKey(e, "gatewayRef");
    ExposureKey(e, "annotations");
    ExposureKey(e, "publicBaseUrlEnv");
  }

  lemma {:induction false} ExposureRefPrinted(e: WebExposure)
    ensures MapParentRef(ExposureJson(e).fields) == Ok(NormExposure(e).gatewayRef)
  {
    ExposureKey(e, "gatewayRef");
    if e.gatewayRef.Some? {
      ParentRefPrinted(ExposureJson(e).fields, e.gatewayRef.value);
    }
  }

  lemma {:induction false} ExposurePathsPrinted(e: WebExposure)
    ensures ArrGet(ExposureJson(e).fields, "paths") == Ok(MapSeq((s: string) => Str(s), e.paths))
    ensures Traverse(MapSeq((s: string) => Str(s), e.paths), PyStr) == Ok(e.paths)
  {
    ExposureNames(e, "paths");
    PathsPrinted(e.paths);
  }

  /** The parts of a parsed exposure put together. */
  lemma {:induction false} ExposureAssembled(o: map<string, Json>, e: WebExposure, items: seq<Json>)
    requires StrKey(o, "name") == Ok(e.name) && StrKey(o, "portName") == Ok(e.portName) &&
        StrKey(o, "hostname") == Ok(e.hostname)
    requires ArrGet(o, "paths") == Ok(items) && Traverse(items, PyStr) == Ok(e.paths)
    requires MapParentRef(o) == Ok(NormExposure(e).gatewayRef) && MapAnnotations(o) == Ok(NormExposure(e).annotations)
    requires OptGet(o, "publicBaseUrlEnv") == Ok(NormExposure(e).publicBaseUrlEnv)
    ensures MapWebExposure(Obj(o)) == Ok(NormExposure(e))
  {
  }

  lemma {:induction false} ExposurePrinted(e: WebExposure)
    ensures MapWebExposure(ExposureJson(e)) == Ok(NormExposure(e))
  {
    ExposureFields(e);
    ExposureOptions(e);
    AnnotationsPrinted(ExposureJson(e).fields, e.annotations);
    ExposureRefPrinted(e);
    ExposurePathsPrinted(e);
    ExposureAssembled(ExposureJson(e).fields, e, MapSeq((s: string) => Str(s), e.paths));
  }

  lemma {:induction false} ListPrinted<T, U>(spec: map<string, Json>, k: string, xs: seq<T>,
                          print_: T -> Json, parse: Json -> Res<U>, norm: T -> U)
    requires Get(spec, k) == if xs == [] then Null else Arr(MapSeq(print_, xs))
    requires forall i | 0 <= i < |xs| :: parse(print_(xs[i])) == Ok(norm(xs[i]))
    ensures MapList(spec, k, parse) == Ok(MapSeq(norm, xs))
  {
    TraversePrinted(xs, print_, parse, norm);
    if xs == [] {
      assert MapSeq(print_, xs) == [];
    } else {
      assert |MapSeq(print_, xs)| > 0;
    }
  }

  predicate ListKey(k: string) {
    k == "toolOverrides" || k == "skillRefs" || k == "webExposures"
  }

  lemma {:induction false} SpecKey(m: Mcp, k: string)
    requires !ListKey(k)
    ensures Get(CrdSpec(m), k) == Get(CrdBase(m) + DescriptionJson(m.description), k)
    ensures k in CrdSpec(m) <==> k in CrdBase(m) + DescriptionJson(m.description)
  {
    var base := CrdBase(m) + DescriptionJson(m.description);
    var l1 := ListJson("toolOverrides", MapSeq(OverrideJson, m.toolOverrides));
    var l2 := ListJson("skillRefs", MapSeq(SkillRefJson, m.skillRefs));
    var l3 := ListJson("webExposures", MapSeq(ExposureJson, m.webExposures));
    Through(base, l1, k);
    Through(base + l1, l2, k);
    Through(base + l1 + l2, l3, k);
  }

  lemma {:induction false} SpecBaseKey(m: Mcp, k: string)
    requires k == "enabled" || k == "forwardIdentity" || k == "source" || k == "gatewayRef"
    ensures k in CrdSpec(m) && k in CrdBase(m) && CrdSpec(m)[k] == CrdBase(m)[k]
  {
    SpecKey(m, k);
    Through(CrdBase(m), DescriptionJson(m.description), k);
  }

  /** The fields of a printed record, key by key. */
  lemma {:induction false} SpecFields(m: Mcp)
    ensures var o := CrdSpec(m);
            && BoolGet(o, "enabled", true) == m.enabled
            && BoolGet(o, "forwardIdentity", false) == m.forwardIdentity
            && "source" in o && o["source"] == Obj(SourceJson(m.namespace, m.source))
  {
    SpecBaseKey(m, "enabled");
    SpecBaseKey(m, "forwardIdentity");
    SpecBaseKey(m, "source");
  }

  lemma {:induction false} SpecDescription(m: Mcp)
    ensures OptGet(CrdSpec(m), "description") == Ok(m.description)
  {
    SpecKey(m, "description");
    Through(CrdBase(m), DescriptionJson(m.description), "description");
    assert "description" !in CrdBase(m);
  }

  lemma {:induction false} SpecGateway(m: Mcp)
    ensures MapGatewayName(CrdSpec(m)) == Ok(m.gateway.name)
  {
    SpecBaseKey(m, "gatewayRef");
    var ref := map["name" := Str(m.gateway.name)];
    assert CrdSpec(m)["gatewayRef"] == Obj(ref);
    assert StrKey(ref, "name") == Ok(m.gateway.name);
  }

  lemma {:induction false} SpecNames(m: Mcp)
    ensures OptGet(CrdSpec(m), "description") == Ok(m.description)
    ensures MapGatewayName(CrdSpec(m)) == Ok(m.gateway.name)
  {
    SpecDescription(m);
    SpecGateway(m);
  }

  lemma {:induction false} SpecOverrides(m: Mcp)
    ensures Get(CrdSpec(m), "toolOverrides") ==
        (if m.toolOverrides == [] then Null else Arr(MapSeq(OverrideJson, m.toolOverrides)))
  {
  }

  lemma {:induction false} SpecSkills(m: Mcp)
    ensures Get(CrdSpec(m), "skillRefs") == (if m.skillRefs == [] then Null else Arr(MapSeq(SkillRefJson, m.skillRefs)))
  {
  }

  lemma {:induction false} SpecExposures(m: Mcp)
    ensures Get(CrdSpec(m), "webExposures") ==
        (if m.webExposures == [] then Null else Arr(MapSeq(ExposureJson, m.webExposures)))
  {
  }

  // ---------------------------------------------------------------- the whole record

  lemma {:induction false} ListsPrinted(m: Mcp)
    ensures MapList(CrdSpec(m), "toolOverrides", MapOverride) == Ok(MapSeq(NormOverride, m.toolOverrides))
    ensures MapList(CrdSpec(m), "skillRefs", MapSkillRef) == Ok(MapSeq(NormSkillRef, m.skillRefs))
    ensures MapList(CrdSpec(m), "webExposures", MapWebExposure) == Ok(MapSeq(NormExposure, m.webExposures))
  {
    SpecOverrides(m);
    SpecSkills(m);
    SpecExposures(m);
    forall ov: ToolOverride ensures MapOverride(OverrideJson(ov)) == Ok(NormOverride(ov)) { OverridePrinted(ov); }
    forall r: SkillRef ensures MapSkillRef(SkillRefJson(r)) == Ok(NormSkillRef(r)) { SkillRefPrinted(r); }
    forall e: WebExposure ensures MapWebExposure(ExposureJson(e)) == Ok(NormExposure(e)) { ExposurePrinted(e); }
    ListPrinted(CrdSpec(m), "toolOverrides", m.toolOverrides, OverrideJson, MapOverride, NormOverride);
    ListPrinted(CrdSpec(m), "skillRefs", m.skillRefs, SkillRefJson, MapSkillRef, NormSkillRef);
    ListPrinted(CrdSpec(m), "webExposures", m.webExposures, ExposureJson, MapWebExposure, NormExposure);
  }

  /** `MapMcp` when everything but the source is known to parse. */
  lemma {:induction false} Assemble(namespace: string, name: string, spec: map<string, Json>)
    requires MapGatewayName(spec).Ok? && OptGet(spec, "description").Ok?
    requires MapList(spec, "toolOverrides", MapOverride).Ok? && MapList(spec, "skillRefs", MapSkillRef).Ok?
    requires MapList(spec, "webExposures", MapWebExposure).Ok?
    ensures MapMcp(namespace, name, spec)
         == match MapSource(namespace, spec)
            case Err(e) => Err(e)
            case Ok(source) =>
              Ok(Mcp(namespace, name, GatewayKey(namespace, MapGatewayName(spec).value), BoolGet(spec, "enabled", true),
                     OptGet(spec, "description").value, source, MapList(spec, "toolOverrides", MapOverride).value,
                     MapList(spec, "skillRefs", MapSkillRef).value, MapList(spec, "webExposures", MapWebExposure).value,
                     BoolGet(spec, "forwardIdentity", false)))
  {
  }

  /** Parsing a printed record gives its normal form; only a nameless peer makes it fail. */
  lemma {:induction false} ParsePrinted(m: Mcp)
    requires m.gateway.namespace == m.namespace
    ensures MapMcp(m.namespace, m.name, CrdSpec(m))
         == if m.source.VmcpProxy? && m.source.peer.name == "" then Err(ValueError) else Ok(Normalize(m))
  {
    SpecFields(m);
    SpecNames(m);
    ListsPrinted(m);
    SourcePrinted(m.namespace, CrdSpec(m), m.source);
    Assemble(m.namespace, m.name, CrdSpec(m));
    assert m.gateway == GatewayKey(m.namespace, m.gateway.name);
  }

  /** The normal form is the record itself exactly when the record is canonical. */
  lemma {:induction false} NormalizeIdentity(m: Mcp)
    requires m.source.VmcpProxy? ==> m.source.peer.name != ""
    ensures Normalize(m) == m <==> Canonical(m)
  {
    forall i | 0 <= i < |m.webExposures|
      ensures NormExposure(m.webExposures[i]) == m.webExposures[i] <==> CanonicalExposure(m.webExposures[i])
    {
      ItemsOfDict(m.webExposures[i].annotations);
    }
    var n := Normalize(m);
    assert n.toolOverrides == m.toolOverrides
      <==> forall i | 0 <= i < |m.toolOverrides| :: NormOverride(m.toolOverrides[i]) == m.toolOverrides[i];
    assert n.skillRefs == m.skillRefs
      <==> forall i | 0 <= i < |m.skillRefs| :: NormSkillRef(m.skillRefs[i]) == m.skillRefs[i];
    assert n.webExposures == m.webExposures
      <==> forall i | 0 <= i < |m.webExposures| :: NormExposure(m.webExposures[i]) == m.webExposures[i];
  }

  /** `map_mcp` undoes `mcp_to_crd` on a record if and only if the record is canonical. */
  lemma {:induction false} RoundTripIffCanonical(m: Mcp)
    requires m.gateway.namespace == m.namespace
    ensures MapMcp(m.namespace, m.name, CrdSpec(m)) == Ok(m) <==> Canonical(m)
  {
    ParsePrinted(m);
    if !(m.source.VmcpProxy? && m.source.peer.name == "") {
      NormalizeIdentity(m);
    }
  }

  /** Whatever JSON `map_mcp` accepts, what it returns lives in the given namespace, next to its gateway. */
  lemma {:induction false} MappedIsLocal(namespace: string, name: string, spec: map<string, Json>)
    requires MapMcp(namespace, name, spec).Ok?
    ensures var m := MapMcp(namespace, name, spec).value;
            && m.namespace == namespace && m.name == name && m.gateway.namespace == namespace
            && (m.source.VmcpProxy? ==> m.source.peer.name != "")
  {
    var m := MapMcp(namespace, name, spec).value;
    assert MapSource(namespace, spec) == Ok(m.source);
    if m.source.VmcpProxy? {
      assert MapProxy(namespace, spec["source"].fields) == Ok(m.source);
    }
  }

  /** Wherever `map_mcp` succeeds, printing and parsing again is a normalisation: it succeeds, its
      result is canonical, and doing it once more changes nothing. */
  lemma {:induction false} ParseIsIdempotentNormalisation(namespace: string, name: string, spec: map<string, Json>)
    requires MapMcp(namespace, name, spec).Ok?
    ensures var m := MapMcp(namespace, name, spec).value;
            var again := MapMcp(namespace, name, CrdSpec(m));
            && again == Ok(Normalize(m)) && Canonical(Normalize(m))
            && MapMcp(namespace, name, CrdSpec(again.value)) == again
  {
    MappedIsLocal(namespace, name, spec);
    var m := MapMcp(namespace, name, spec).value;
    ParsePrinted(m);
    var n := Normalize(m);
    NormalizeIsCanonical(m);
    RoundTripIffCanonical(n);
  }

  lemma {:induction false} NormalizeIsCanonical(m: Mcp)
    requires m.source.VmcpProxy? ==> m.source.peer.name != ""
    ensures Canonical(Normalize(m))
  {
    var n := Normalize(m);
    forall i | 0 <= i < |n.webExposures| ensures CanonicalExposure(n.webExposures[i]) {
      DictOfItems(ToDict(m.webExposures[i].annotations));
    }
  }
}
