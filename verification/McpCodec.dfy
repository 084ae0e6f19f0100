/** `map_mcp` and `mcp_to_crd` (`mapping.py`): a parser from custom-resource JSON to the MCP record
    and the printer back, with Python's truthiness, `get` defaults and `or` fallbacks. */
module McpCodec {
  import opened Common

  datatype Json =
    | Null
    | Bool(b: bool)
    | Num(n: int)
    | Str(s: string)
    | Arr(items: seq<Json>)
    | Obj(fields: map<string, Json>)

  /** `Unmodelled`: JSON of a type the resource schema rules out, which Python would coerce. */
  datatype Error = KeyError(key: string) | ValueError | TypeError | Unmodelled

  // ---------------------------------------------------------------- records

  datatype SecretRef = SecretRef(name: string, key: string, writable: bool)
  datatype NamedPort = NamedPort(name: string, containerPort: int, protocol: string)
  datatype McpEndpoint = McpEndpoint(portName: string, path: string)
  datatype ToolOverride = ToolOverride(name: string, readOnly: bool, taskSupport: Option<string>)
  datatype SkillRef = SkillRef(name: string, key: Option<string>)
  datatype WebExposure = WebExposure(
    name: string, portName: string, hostname: string, paths: seq<string>,
    gatewayRef: Option<ParentRef>, annotations: seq<(string, string)>, publicBaseUrlEnv: Option<string>)

  datatype Source =
    | RemoteHttp(url: string, bearer: Option<SecretRef>)
    | ContainerImage(image: string, ports: seq<NamedPort>, endpoint: McpEndpoint, env: seq<(string, string)>)
    | VmcpProxy(peer: GatewayKey, path: string, port: int, bearer: Option<SecretRef>)

  datatype Mcp = Mcp(
    namespace: string, name: string, gateway: GatewayKey, enabled: bool, description: Option<string>,
    source: Source, toolOverrides: seq<ToolOverride>, skillRefs: seq<SkillRef>,
    webExposures: seq<WebExposure>, forwardIdentity: bool)

  // ---------------------------------------------------------------- Python on JSON

  predicate Truthy(j: Json) {
    match j
    case Null => false
    case Bool(b) => b
    case Num(n) => n != 0
    case Str(s) => s != ""
    case Arr(items) => items != []
    case Obj(fields) => fields != map[]
  }

  type Res<T> = Result<T, Error>

  /** `str(v)`. */
  function PyStr(j: Json): Res<string> {
    match j
    case Str(s) => Ok(s)
    case Null => Ok("None")
    case Bool(b) => Ok(if b then "True" else "False")
    case _ => Err(Unmodelled)
  }

  /** `int(v)`. */
  function PyInt(j: Json): Res<int> {
    match j
    case Num(n) => Ok(n)
    case Bool(b) => Ok(if b then 1 else 0)
    case Null => Err(TypeError)
    case Str(_) => Err(Unmodelled)
    case _ => Err(TypeError)
  }

  function Key(o: map<string, Json>, k: string): Res<Json> {
    if k in o then Ok(o[k]) else Err(KeyError(k))
  }

  /** `o.get(k)`. */
  function Get(o: map<string, Json>, k: string): Json {
    if k in o then o[k] else Null
  }

  /** `str(o[k])`. */
  function StrKey(o: map<string, Json>, k: string): Res<string> {
    if k in o then PyStr(o[k]) else Err(KeyError(k))
  }

  /** `str(o.get(k, default))`. */
  function StrGet(o: map<string, Json>, k: string, default: string): Res<string> {
    if k in o then PyStr(o[k]) else Ok(default)
  }

  /** `bool(o.get(k, default))`. */
  function BoolGet(o: map<string, Json>, k: string, default: bool): bool {
    if k in o then Truthy(o[k]) else default
  }

  /** A field passed through untouched: a string, or None. */
  function OptGet(o: map<string, Json>, k: string): Res<Option<string>> {
    match Get(o, k)
    case Null => Ok(None)
    case Str(s) => Ok(Some(s))
    case _ => Err(Unmodelled)
  }

  /** `o.get(k) or {}`. */
  function ObjGet(o: map<string, Json>, k: string): Res<map<string, Json>> {
    var j := Get(o, k);
    if !Truthy(j) then Ok(map[])
    else match j
      case Obj(fields) => Ok(fields)
      case _ => Err(Unmodelled)
  }

  /** `o.get(k) or ()`. */
  function ArrGet(o: map<string, Json>, k: string): Res<seq<Json>> {
    var j := Get(o, k);
    if !Truthy(j) then Ok([])
    else match j
      case Arr(items) => Ok(items)
      case Obj(_) => Err(Unmodelled)
      case Str(_) => Err(Unmodelled)
      case _ => Err(TypeError)
  }

  function AsObj(j: Json): Res<map<string, Json>> {
    match j
    case Obj(fields) => Ok(fields)
    case _ => Err(TypeError)
  }

  /** The first failure, or all results in order. */
  function Traverse<T>(items: seq<Json>, f: Json -> Res<T>): Res<seq<T>> {
    if items == [] then Ok([])
    else match f(items[0])
      case Err(e) => Err(e)
      case Ok(x) =>
        match Traverse(items[1..], f)
        case Err(e) => Err(e)
        case Ok(xs) => Ok([x] + xs)
  }

  // ---------------------------------------------------------------- map_mcp

  function MapSecretRef(j: Json): Res<SecretRef> {
    match AsObj(j)
    case Err(e) => Err(e)
    case Ok(o) =>
      match (StrKey(o, "name"), StrGet(o, "key", "token"))
      case (Ok(name), Ok(key)) => Ok(SecretRef(name, key, BoolGet(o, "writable", false)))
      case (Err(e), _) => Err(e)
      case (_, Err(e)) => Err(e)
  }

  function MapBearer(source: map<string, Json>): Res<Option<SecretRef>> {
    if !Truthy(Get(source, "bearerSecretRef")) then Ok(None)
    else match MapSecretRef(Get(source, "bearerSecretRef"))
      case Ok(r) => Ok(Some(r))
      case Err(e) => Err(e)
  }

  function MapPort(j: Json): Res<NamedPort> {
    match AsObj(j)
    case Err(e) => Err(e)
    case Ok(o) =>
      match StrKey(o, "name")
      case Err(e) => Err(e)
      case Ok(name) =>
        match Key(o, "containerPort")
        case Err(e) => Err(e)
        case Ok(cp) =>
          match (PyInt(cp), StrGet(o, "protocol", "TCP"))
          case (Ok(n), Ok(p)) => Ok(NamedPort(name, n, p))
          case (Err(e), _) => Err(e)
          case (_, Err(e)) => Err(e)
  }

  /** One `env` item; an object without a name is skipped. */
  function MapEnv(items: seq<Json>): Res<seq<(string, string)>> {
    if items == [] then Ok([])
    else match AsObj(items[0])
      case Err(_) => Err(Unmodelled)
      case Ok(o) =>
        if "name" !in o then MapEnv(items[1..])
        else match (StrKey(o, "name"), StrGet(o, "value", ""))
          case (Ok(k), Ok(v)) =>
            (match MapEnv(items[1..])
             case Ok(rest) => Ok([(k, v)] + rest)
             case Err(e) => Err(e))
          case (Err(e), _) => Err(e)
          case (_, Err(e)) => Err(e)
  }

  function MapRemoteHttp(source: map<string, Json>): Res<Source> {
    match (StrKey(source, "url"), MapBearer(source))
    case (Ok(url), Ok(bearer)) => Ok(RemoteHttp(url, bearer))
    case (Err(e), _) => Err(e)
    case (_, Err(e)) => Err(e)
  }

  function MapEndpoint(source: map<string, Json>): Res<McpEndpoint> {
    match ObjGet(source, "mcpEndpoint")
    case Err(e) => Err(e)
    case Ok(o) =>
      match (StrGet(o, "portName", "http"), StrGet(o, "path", "/mcp"))
      case (Ok(p), Ok(path)) => Ok(McpEndpoint(p, path))
      case (Err(e), _) => Err(e)
      case (_, Err(e)) => Err(e)
  }

  function MapPorts(source: map<string, Json>): Res<seq<NamedPort>> {
    match ArrGet(source, "ports")
    case Err(e) => Err(e)
    case Ok(items) => Traverse(items, MapPort)
  }

  function MapEnvOf(source: map<string, Json>): Res<seq<(string, string)>> {
    match ArrGet(source, "env")
    case Err(e) => Err(e)
    case Ok(items) => MapEnv(items)
  }

  function MapContainer(source: map<string, Json>): Res<Source> {
    match (MapPorts(source), MapEndpoint(source), StrKey(source, "image"), MapEnvOf(source))
    case (Ok(ports), Ok(ep), Ok(image), Ok(env)) => Ok(ContainerImage(image, ports, ep, env))
    case (Err(e), _, _, _) => Err(e)
    case (_, Err(e), _, _) => Err(e)
    case (_, _, Err(e), _) => Err(e)
    case (_, _, _, Err(e)) => Err(e)
  }

  /** `str(o.get(k) or default)`. */
  function StrOr(o: map<string, Json>, k: string, default: string): Res<string> {
    if Truthy(Get(o, k)) then PyStr(Get(o, k)) else Ok(default)
  }

  function MapProxy(namespace: string, source: map<string, Json>): Res<Source> {
    match ObjGet(source, "peerGatewayRef")
    case Err(e) => Err(e)
    case Ok(peer) =>
      if !Truthy(Get(peer, "name")) then Err(ValueError)
      else
        var port := if Truthy(Get(source, "port")) then PyInt(Get(source, "port")) else Ok(8080);
        match (StrOr(peer, "namespace", namespace), PyStr(Get(peer, "name")),
               StrOr(source, "path", "/mcp-proxy"), port, MapBearer(source))
        case (Ok(ns), Ok(name), Ok(path), Ok(p), Ok(bearer)) =>
          Ok(VmcpProxy(GatewayKey(ns, name), path, p, bearer))
        case (Err(e), _, _, _, _) => Err(e)
        case (_, Err(e), _, _, _) => Err(e)
        case (_, _, Err(e), _, _) => Err(e)
        case (_, _, _, Err(e), _) => Err(e)
        case (_, _, _, _, Err(e)) => Err(e)
  }

  function MapSource(namespace: string, spec: map<string, Json>): Res<Source> {
    match Key(spec, "source")
    case Err(e) => Err(e)
    case Ok(j) =>
      match AsObj(j)
      case Err(e) => Err(e)
      case Ok(source) =>
        if "type" !in source then Err(KeyError("type"))
        else if source["type"] == Str("RemoteHttp") then MapRemoteHttp(source)
        else if source["type"] == Str("ContainerImage") then MapContainer(source)
        else if source["type"] == Str("VmcpProxy") then MapProxy(namespace, source)
        else Err(ValueError)
  }

  function MapOverride(j: Json): Res<ToolOverride> {
    match AsObj(j)
    case Err(e) => Err(e)
    case Ok(o) =>
      match (StrKey(o, "name"), Key(o, "readOnly"), OptGet(o, "taskSupport"))
      case (Ok(name), Ok(ro), Ok(ts)) => Ok(ToolOverride(name, Truthy(ro), ts))
      case (Err(e), _, _) => Err(e)
      case (_, Err(e), _) => Err(e)
      case (_, _, Err(e)) => Err(e)
  }

  function MapSkillRef(j: Json): Res<SkillRef> {
    match AsObj(j)
    case Err(e) => Err(e)
    case Ok(o) =>
      match (StrKey(o, "name"), OptGet(o, "key"))
      case (Ok(name), Ok(key)) => Ok(SkillRef(name, key))
      case (Err(e), _) => Err(e)
      case (_, Err(e)) => Err(e)
  }

  function MapParentRef(o: map<string, Json>): Res<Option<ParentRef>> {
    var j := Get(o, "gatewayRef");
    if !Truthy(j) then Ok(None)
    else match AsObj(j)
      case Err(e) => Err(e)
      case Ok(ref) =>
        match (StrKey(ref, "name"), OptGet(ref, "namespace"), OptGet(ref, "sectionName"))
        case (Ok(name), Ok(ns), Ok(section)) => Ok(Some(ParentRef(name, ns, section)))
        case (Err(e), _, _) => Err(e)
        case (_, Err(e), _) => Err(e)
        case (_, _, Err(e)) => Err(e)
  }

  /** `sorted((str(k), str(v)) for k, v in annotations.items())`. */
  function MapAnnotations(o: map<string, Json>): Res<seq<(string, string)>> {
    match ObjGet(o, "annotations")
    case Err(e) => Err(e)
    case Ok(a) =>
      if forall k | k in a :: PyStr(a[k]).Ok?
      then Ok(Items(map k | k in a :: PyStr(a[k]).value))
      else Err(Unmodelled)
  }

  function MapWebExposure(j: Json): Res<WebExposure> {
    match AsObj(j)
    case Err(e) => Err(e)
    case Ok(o) =>
      match (StrKey(o, "name"), StrKey(o, "portName"), StrKey(o, "hostname"))
      case (Ok(name), Ok(port), Ok(host)) =>
        (match (ArrGet(o, "paths"), MapParentRef(o), MapAnnotations(o), OptGet(o, "publicBaseUrlEnv"))
         case (Ok(items), Ok(ref), Ok(ann), Ok(env)) =>
           (match Traverse(items, PyStr)
            case Ok(paths) => Ok(WebExposure(name, port, host, paths, ref, ann, env))
            case Err(e) => Err(e))
         case (Err(e), _, _, _) => Err(e)
         case (_, Err(e), _, _) => Err(e)
         case (_, _, Err(e), _) => Err(e)
         case (_, _, _, Err(e)) => Err(e))
      case (Err(e), _, _) => Err(e)
      case (_, Err(e), _) => Err(e)
      case (_, _, Err(e)) => Err(e)
  }

  function MapList<T>(spec: map<string, Json>, k: string, f: Json -> Res<T>): Res<seq<T>> {
    match ArrGet(spec, k)
    case Err(e) => Err(e)
    case Ok(items) => Traverse(items, f)
  }

  function MapGatewayName(spec: map<string, Json>): Res<string> {
    match Key(spec, "gatewayRef")
    case Err(e) => Err(e)
    case Ok(j) =>
      match AsObj(j)
      case Err(e) => Err(e)
      case Ok(ref) => StrKey(ref, "name")
  }

  function MapMcp(namespace: string, name: string, spec: map<string, Json>): Res<Mcp> {
    match (MapSource(namespace, spec), MapGatewayName(spec), OptGet(spec, "description"))
    case (Ok(source), Ok(gw), Ok(desc)) =>
      (match (MapList(spec, "toolOverrides", MapOverride), MapList(spec, "skillRefs", MapSkillRef),
              MapList(spec, "webExposures", MapWebExposure))
       case (Ok(ovs), Ok(refs), Ok(exps)) =>
         Ok(Mcp(namespace, name, GatewayKey(namespace, gw), BoolGet(spec, "enabled", true), desc, source,
                ovs, refs, exps, BoolGet(spec, "forwardIdentity", false)))
       case (Err(e), _, _) => Err(e)
       case (_, Err(e), _) => Err(e)
       case (_, _, Err(e)) => Err(e))
    case (Err(e), _, _) => Err(e)
    case (_, Err(e), _) => Err(e)
    case (_, _, Err(e)) => Err(e)
  }

  // ---------------------------------------------------------------- dicts as sorted pairs

  /** `sorted(d.items())`. */
  function Items(d: map<string, string>): (r: seq<(string, string)>) {
    SortedKeysFacts(d.Keys);
    var ks := SortedKeys(d.Keys);
    seq(|ks|, i requires 0 <= i < |ks| => (ks[i], d[ks[i]]))
  }

  /** `dict(pairs)`: a later pair replaces an earlier one. */
  function ToDict(pairs: seq<(string, string)>): (d: map<string, string>) {
    if pairs == [] then map[]
    else ToDict(pairs[..|pairs| - 1])[pairs[|pairs| - 1].0 := pairs[|pairs| - 1].1]
  }

  function Firsts(pairs: seq<(string, string)>): seq<string> {
    seq(|pairs|, i requires 0 <= i < |pairs| => pairs[i].0)
  }

  lemma {:induction false} ToDictKeys(pairs: seq<(string, string)>)
    ensures forall k :: k in ToDict(pairs) <==> k in Firsts(pairs)
    ensures StrictlySorted(Firsts(pairs)) ==> forall i | 0 <= i < |pairs| ::
              pairs[i].0 in ToDict(pairs) && ToDict(pairs)[pairs[i].0] == pairs[i].1
  {
    if pairs != [] {
      var last := |pairs| - 1;
      ToDictKeys(pairs[..last]);
      assert Firsts(pairs) == Firsts(pairs[..last]) + [pairs[last].0];
      assert forall i | 0 <= i < |pairs| :: Firsts(pairs)[i] == pairs[i].0;
      assert forall i | 0 <= i < last :: Firsts(pairs[..last])[i] == Firsts(pairs)[i];
    }
  }

  /** Turning pairs into a dict and back is the identity exactly on strictly sorted pairs. */
  lemma {:induction false} ItemsOfDict(pairs: seq<(string, string)>)
    ensures Items(ToDict(pairs)) == pairs <==> StrictlySorted(Firsts(pairs))
  {
    ToDictKeys(pairs);
    var d := ToDict(pairs);
    SortedKeysFacts(d.Keys);
    var r := Items(d);
    assert Firsts(r) == SortedKeys(d.Keys);
    if StrictlySorted(Firsts(pairs)) {
      SortedKeysUnique(Firsts(pairs), d.Keys);
      assert forall i | 0 <= i < |pairs| :: Firsts(pairs)[i] == pairs[i].0;
      assert forall i | 0 <= i < |r| :: r[i] == pairs[i];
    }
  }

  lemma {:induction false} DictOfItems(d: map<string, string>)
    ensures StrictlySorted(Firsts(Items(d)))
    ensures ToDict(Items(d)) == d
  {
    SortedKeysFacts(d.Keys);
    var r := Items(d);
    assert Firsts(r) == SortedKeys(d.Keys);
    ToDictKeys(r);
    forall k | k in d ensures k in ToDict(r) && ToDict(r)[k] == d[k] {
      assert k in Firsts(r);
      var i :| 0 <= i < |r| && Firsts(r)[i] == k;
      assert r[i] == (k, d[k]);
    }
  }

  // ---------------------------------------------------------------- mcp_to_crd

  function Optional(k: string, v: Option<string>): map<string, Json> {
    if v.Some? && v.value != "" then map[k := Str(v.value)] else map[]
  }

  function BearerJson(bearer: Option<SecretRef>): map<string, Json> {
    match bearer
    case None => map[]
    case Some(r) => map["bearerSecretRef" := Obj(map["name" := Str(r.name), "key" := Str(r.key)])]
  }

  function PortJson(p: NamedPort): Json {
    Obj(map["name" := Str(p.name), "containerPort" := Num(p.containerPort), "protocol" := Str(p.protocol)])
  }

  function EnvJson(e: (string, string)): Json {
    Obj(map["name" := Str(e.0), "value" := Str(e.1)])
  }

  function PeerJson(namespace: string, peer: GatewayKey): Json {
    Obj(map["name" := Str(peer.name)]
        + if peer.namespace != namespace then map["namespace" := Str(peer.namespace)] else map[])
  }

  function SourceJson(namespace: string, source: Source): map<string, Json> {
    match source
    case RemoteHttp(url, bearer) => map["type" := Str("RemoteHttp"), "url" := Str(url)] + BearerJson(bearer)
    case ContainerImage(image, ports, ep, env) =>
      map["type" := Str("ContainerImage"), "image" := Str(image), "ports" := Arr(MapSeq(PortJson, ports)),
          "mcpEndpoint" := Obj(map["portName" := Str(ep.portName), "path" := Str(ep.path)])]
      + if env != [] then map["env" := Arr(MapSeq(EnvJson, env))] else map[]
    case VmcpProxy(peer, path, port, bearer) =>
      map["type" := Str("VmcpProxy"), "peerGatewayRef" := PeerJson(namespace, peer),
          "path" := Str(path), "port" := Num(port)] + BearerJson(bearer)
  }

  function OverrideJson(ov: ToolOverride): Json {
    Obj(map["name" := Str(ov.name), "readOnly" := Bool(ov.readOnly)] + Optional("taskSupport", ov.taskSupport))
  }

  function SkillRefJson(r: SkillRef): Json {
    Obj(map["name" := Str(r.name)] + Optional("key", r.key))
  }

  function ParentRefJson(r: ParentRef): Json {
    Obj(map["name" := Str(r.name)] + Optional("namespace", r.namespace) + Optional("sectionName", r.sectionName))
  }

  function DictJson(d: map<string, string>): Json {
    Obj(map k | k in d :: Str(d[k]))
  }

  function ExposureJson(e: WebExposure): Json {
    Obj(map["name" := Str(e.name), "portName" := Str(e.portName), "hostname" := Str(e.hostname),
            "paths" := Arr(MapSeq(s => Str(s), e.paths))]
        + (if e.gatewayRef.Some? then map["gatewayRef" := ParentRefJson(e.gatewayRef.value)] else map[])
        + (if e.annotations != [] then map["annotations" := DictJson(ToDict(e.annotations))] else map[])
        + Optional("publicBaseUrlEnv", e.publicBaseUrlEnv))
  }

  function ListJson(k: string, items: seq<Json>): map<string, Json> {
    if items == [] then map[] else map[k := Arr(items)]
  }

  function CrdBase(m: Mcp): map<string, Json> {
    map["enabled" := Bool(m.enabled), "gatewayRef" := Obj(map["name" := Str(m.gateway.name)]),
        "source" := Obj(SourceJson(m.namespace, m.source)), "forwardIdentity" := Bool(m.forwardIdentity)]
  }

  function DescriptionJson(d: Option<string>): map<string, Json> {
    if d.Some? then map["description" := Str(d.value)] else map[]
  }

  function CrdSpec(m: Mcp): map<string, Json> {
    CrdBase(m) + DescriptionJson(m.description)
    + ListJson("toolOverrides", MapSeq(OverrideJson, m.toolOverrides))
    + ListJson("skillRefs", MapSeq(SkillRefJson, m.skillRefs))
    + ListJson("webExposures", MapSeq(ExposureJson, m.webExposures))
  }

  lemma {:induction false} AddKey(d: map<string, Json>, k: string, v: Json)
    ensures d[k := v] == d + map[k := v] && d + map[] == d
  {
  }

  method AddList(spec: map<string, Json>, k: string, items: seq<Json>) returns (r: map<string, Json>)
    ensures r == spec + ListJson(k, items)
  {
    AddKey(spec, k, Arr(items));
    r := if items != [] then spec[k := Arr(items)] else spec;
  }

  /** `mcp_to_crd`: fills the spec dict key by key. */
  method McpToCrd(m: Mcp) returns (r: Res<map<string, Json>>)
    ensures r == if m.gateway.namespace != m.namespace then Err(ValueError) else Ok(CrdSpec(m))
  {
    if m.gateway.namespace != m.namespace {
      return Err(ValueError);
    }
    var spec := CrdBase(m);
    if m.description.Some? {
      AddKey(spec, "description", Str(m.description.value));
      spec := spec["description" := Str(m.description.value)];
    }
    assert spec == CrdBase(m) + DescriptionJson(m.description);
    spec := AddList(spec, "toolOverrides", MapSeq(OverrideJson, m.toolOverrides));
    spec := AddList(spec, "skillRefs", MapSeq(SkillRefJson, m.skillRefs));
    spec := AddList(spec, "webExposures", MapSeq(ExposureJson, m.webExposures));
    return Ok(spec);
  }
}
