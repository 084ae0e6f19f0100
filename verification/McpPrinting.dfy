/** What `mcp_to_crd` writes: which keys every object of a printed resource has and what kind of value each holds, so
    that with the reading of the same resource its text is settled: no default is left out, and an empty list, an empty
    text or a namespace that goes without saying is. */
module McpPrinting {
  import opened Common
  import opened McpCodec
  import R = McpCodecRoundTrip

  type Fields = map<string, Json>

  function If(b: bool, k: string): set<string> {
    if b then {k} else {}
  }

  predicate Text(o: Fields, k: string) {
    k in o ==> o[k].Str?
  }

  /** An object with these keys and only texts in it. */
  predicate TextObject(j: Json, keys: set<string>) {
    j.Obj? && j.fields.Keys == keys && forall k | k in keys :: j.fields[k].Str?
  }

  predicate Filled(v: Option<string>) {
    v.Some? && v.value != ""
  }

  predicate PortShape(j: Json) {
    && j.Obj? && j.fields.Keys == {"name", "containerPort", "protocol"}
    && j.fields["name"].Str? && j.fields["containerPort"].Num? && j.fields["protocol"].Str?
  }

  predicate BearerShape(o: Fields, b: Option<SecretRef>) {
    b.Some? ==> "bearerSecretRef" in o && TextObject(o["bearerSecretRef"], {"name", "key"})
  }

  predicate SourceShape(namespace: string, s: Source, o: Fields) {
    && Text(o, "type")
    && match s
       case RemoteHttp(_, bearer) =>
         o.Keys == {"type", "url"} + If(bearer.Some?, "bearerSecretRef") && Text(o, "url") && BearerShape(o, bearer)
       case ContainerImage(_, ports, _, env) =>
         && o.Keys == {"type", "image", "ports", "mcpEndpoint"} + If(env != [], "env") && Text(o, "image")
         && TextObject(o["mcpEndpoint"], {"portName", "path"})
         && o["ports"].Arr? && |o["ports"].items| == |ports|
         && (forall i | 0 <= i < |ports| :: PortShape(o["ports"].items[i]))
         && (env != [] ==> o["env"].Arr? && |o["env"].items| == |env|
                           && forall i | 0 <= i < |env| :: TextObject(o["env"].items[i], {"name", "value"}))
       case VmcpProxy(peer, _, _, bearer) =>
         && o.Keys == {"type", "peerGatewayRef", "path", "port"} + If(bearer.Some?, "bearerSecretRef")
         && Text(o, "path") && o["port"].Num? && BearerShape(o, bearer)
         && TextObject(o["peerGatewayRef"], {"name"} + If(peer.namespace != namespace, "namespace"))
  }

  predicate OverrideShape(ov: ToolOverride, j: Json) {
    && j.Obj? && j.fields.Keys == {"name", "readOnly"} + If(Filled(ov.taskSupport), "taskSupport")
    && j.fields["name"].Str? && j.fields["readOnly"].Bool? && Text(j.fields, "taskSupport")
  }

  predicate SkillShape(r: SkillRef, j: Json) {
    TextObject(j, {"name"} + If(Filled(r.key), "key"))
  }

  predicate ParentShape(r: ParentRef, j: Json) {
    TextObject(j, {"name"} + If(Filled(r.namespace), "namespace") + If(Filled(r.sectionName), "sectionName"))
  }

  predicate ExposureKey(e: WebExposure, k: string) {
    || k in {"name", "portName", "hostname", "paths"}
    || (k == "gatewayRef" && e.gatewayRef.Some?) || (k == "annotations" && e.annotations != [])
    || (k == "publicBaseUrlEnv" && Filled(e.publicBaseUrlEnv))
  }

  predicate TextList(j: Json, n: nat) {
    j.Arr? && |j.items| == n && forall i | 0 <= i < n :: j.items[i].Str?
  }

  ghost predicate ExposureShape(e: WebExposure, j: Json) {
    && j.Obj? && (forall k :: k in j.fields <==> ExposureKey(e, k))
    && Text(j.fields, "name") && Text(j.fields, "portName") && Text(j.fields, "hostname")
    && Text(j.fields, "publicBaseUrlEnv")
    && ("paths" in j.fields && TextList(j.fields["paths"], |e.paths|))
    && (e.gatewayRef.Some? ==> "gatewayRef" in j.fields && ParentShape(e.gatewayRef.value, j.fields["gatewayRef"]))
    && (e.annotations != [] ==>
          && "annotations" in j.fields
          && TextObject(j.fields["annotations"], set i | 0 <= i < |e.annotations| :: e.annotations[i].0))
  }

  /** A list is there unless it is empty, and then each element has its shape. */
  predicate ListShape<T>(spec: Fields, k: string, xs: seq<T>, shape: (T, Json) -> bool) {
    xs != [] ==> k in spec && spec[k].Arr? && |spec[k].items| == |xs|
                 && forall i | 0 <= i < |xs| :: shape(xs[i], spec[k].items[i])
  }

  ghost predicate ExposuresShape(m: Mcp, spec: Fields) {
    m.webExposures != [] ==>
      && "webExposures" in spec && spec["webExposures"].Arr? && |spec["webExposures"].items| == |m.webExposures|
      && forall i | 0 <= i < |m.webExposures| :: ExposureShape(m.webExposures[i], spec["webExposures"].items[i])
  }

  predicate SpecKey(m: Mcp, k: string) {
    || k in {"enabled", "gatewayRef", "source", "forwardIdentity"}
    || (k == "description" && m.description.Some?) || (k == "toolOverrides" && m.toolOverrides != [])
    || (k == "skillRefs" && m.skillRefs != []) || (k == "webExposures" && m.webExposures != [])
  }

  ghost predicate SpecShape(m: Mcp, spec: Fields) {
    && (forall k :: k in spec <==> SpecKey(m, k))
    && "enabled" in spec && spec["enabled"].Bool? && "forwardIdentity" in spec && spec["forwardIdentity"].Bool?
    && Text(spec, "description") && "gatewayRef" in spec && TextObject(spec["gatewayRef"], {"name"})
    && "source" in spec && spec["source"].Obj? && SourceShape(m.namespace, m.source, spec["source"].fields)
    && ListShape(spec, "toolOverrides", m.toolOverrides, OverrideShape)
    && ListShape(spec, "skillRefs", m.skillRefs, SkillShape)
    && ExposuresShape(m, spec)
  }

  /** An object extended by one key, or left as it is. */
  lemma {:induction false} Extended(a: Fields, b: Fields, c: bool, k: string)
    requires b.Keys == If(c, k) && k !in a
    ensures (a + b).Keys == a.Keys + If(c, k)
    ensures forall j | j in a :: (a + b)[j] == a[j]
    ensures c ==> (a + b)[k] == b[k]
  {
  }

  lemma {:induction false} RemotePrinted(namespace: string, s: Source)
    requires s.RemoteHttp?
    ensures SourceShape(namespace, s, SourceJson(namespace, s))
  {
    var base := map["type" := Str("RemoteHttp"), "url" := Str(s.url)];
    Extended(base, BearerJson(s.bearer), s.bearer.Some?, "bearerSecretRef");
  }

  lemma {:induction false} ContainerPrinted(namespace: string, s: Source)
    requires s.ContainerImage?
    ensures SourceShape(namespace, s, SourceJson(namespace, s))
  {
    var ep := Obj(map["portName" := Str(s.endpoint.portName), "path" := Str(s.endpoint.path)]);
    var base := map["type" := Str("ContainerImage"), "image" := Str(s.image), "ports" := Arr(MapSeq(PortJson, s.ports)),
                    "mcpEndpoint" := ep];
    var env := if s.env != [] then map["env" := Arr(MapSeq(EnvJson, s.env))] else map[];
    Extended(base, env, s.env != [], "env");
    assert SourceJson(namespace, s) == base + env;
    assert TextObject(ep, {"portName", "path"});
    forall i | 0 <= i < |s.ports| ensures PortShape(PortJson(s.ports[i])) { PortPrinted(s.ports[i]); }
    forall i | 0 <= i < |s.env| ensures TextObject(EnvJson(s.env[i]), {"name", "value"}) { EnvPrinted(s.env[i]); }
  }

  lemma {:induction false} PortPrinted(p: NamedPort)
    ensures PortShape(PortJson(p))
  {
  }

  lemma {:induction false} EnvPrinted(e: (string, string))
    ensures TextObject(EnvJson(e), {"name", "value"})
  {
  }

  lemma {:induction false} ProxyPrinted(namespace: string, s: Source)
    requires s.VmcpProxy?
    ensures SourceShape(namespace, s, SourceJson(namespace, s))
  {
    var base := map["type" := Str("VmcpProxy"), "peerGatewayRef" := PeerJson(namespace, s.peer),
                    "path" := Str(s.path), "port" := Num(s.port)];
    Extended(base, BearerJson(s.bearer), s.bearer.Some?, "bearerSecretRef");
    assert SourceJson(namespace, s) == base + BearerJson(s.bearer);
    assert TextObject(PeerJson(namespace, s.peer), {"name"} + If(s.peer.namespace != namespace, "namespace"));
  }

  lemma {:induction false} SourcePrinted(namespace: string, s: Source)
    ensures SourceShape(namespace, s, SourceJson(namespace, s))
  {
    match s
    case RemoteHttp(_, _) => RemotePrinted(namespace, s);
    case ContainerImage(_, _, _, _) => ContainerPrinted(namespace, s);
    case VmcpProxy(_, _, _, _) => ProxyPrinted(namespace, s);
  }

  lemma {:induction false} OverridePrinted(ov: ToolOverride)
    ensures OverrideShape(ov, OverrideJson(ov))
  {
  }

  lemma {:induction false} SkillPrinted(r: SkillRef)
    ensures SkillShape(r, SkillRefJson(r))
  {
  }

  lemma {:induction false} ParentPrinted(r: ParentRef)
    ensures ParentShape(r, ParentRefJson(r))
  {
  }

  lemma {:induction false} AnnotationsPrinted(pairs: seq<(string, string)>)
    ensures TextObject(DictJson(ToDict(pairs)), set i | 0 <= i < |pairs| :: pairs[i].0)
  {
    ToDictKeys(pairs);
    var keys := set i | 0 <= i < |pairs| :: pairs[i].0;
    forall k ensures k in keys <==> k in ToDict(pairs) {
      if k in keys {
        var i :| 0 <= i < |pairs| && pairs[i].0 == k;
        assert Firsts(pairs)[i] == k;
      }
    }
    assert DictJson(ToDict(pairs)).fields.Keys == keys;
  }

  lemma {:induction false} ExposureAt(e: WebExposure, k: string)
    ensures var o := ExposureJson(e).fields;
            && (k in o <==> ExposureKey(e, k))
            && (k in {"name", "portName", "hostname"} ==> o[k].Str?)
            && (k == "paths" ==> o[k] == Arr(MapSeq(s => Str(s), e.paths)))
            && (k == "gatewayRef" && k in o ==> o[k] == ParentRefJson(e.gatewayRef.value))
            && (k == "annotations" && k in o ==> o[k] == DictJson(ToDict(e.annotations)))
            && (k == "publicBaseUrlEnv" && k in o ==> o[k].Str?)
  {
    var base := map["name" := Str(e.name), "portName" := Str(e.portName), "hostname" := Str(e.hostname),
                    "paths" := Arr(MapSeq(s => Str(s), e.paths))];
    var ref := if e.gatewayRef.Some? then map["gatewayRef" := ParentRefJson(e.gatewayRef.value)] else map[];
    var notes := if e.annotations != [] then map["annotations" := DictJson(ToDict(e.annotations))] else map[];
    var url := Optional("publicBaseUrlEnv", e.publicBaseUrlEnv);
    R.Through(base, ref, k);
    R.Through(base + ref, notes, k);
    R.Through(base + ref + notes, url, k);
  }

  lemma {:induction false} ExposurePrinted(e: WebExposure)
    ensures ExposureShape(e, ExposureJson(e))
  {
    forall k ensures k in ExposureJson(e).fields <==> ExposureKey(e, k) { ExposureAt(e, k); }
    ExposureAt(e, "name");
    ExposureAt(e, "portName");
    ExposureAt(e, "hostname");
    ExposureAt(e, "paths");
    ExposureAt(e, "gatewayRef");
    ExposureAt(e, "annotations");
    ExposureAt(e, "publicBaseUrlEnv");
    if e.gatewayRef.Some? { ParentPrinted(e.gatewayRef.value); }
    AnnotationsPrinted(e.annotations);
  }

  lemma {:induction false} ListPrinted<T>(spec: Fields, k: string, xs: seq<T>, js: seq<Json>, shape: (T, Json) -> bool)
    requires |js| == |xs| && forall i | 0 <= i < |xs| :: shape(xs[i], js[i])
    requires xs != [] ==> k in spec && spec[k] == Arr(js)
    ensures ListShape(spec, k, xs, shape)
  {
  }

  /** What a printed resource has under one key. */
  lemma {:induction false} SpecAt(m: Mcp, k: string)
    ensures var o := CrdSpec(m);
            && (k in o <==> SpecKey(m, k))
            && (k in {"enabled", "gatewayRef", "source", "forwardIdentity"} ==> o[k] == CrdBase(m)[k])
            && (k == "description" && k in o ==> o[k] == Str(m.description.value))
            && (k == "toolOverrides" && k in o ==> o[k] == Arr(MapSeq(OverrideJson, m.toolOverrides)))
            && (k == "skillRefs" && k in o ==> o[k] == Arr(MapSeq(SkillRefJson, m.skillRefs)))
            && (k == "webExposures" && k in o ==> o[k] == Arr(MapSeq(ExposureJson, m.webExposures)))
  {
    var base := CrdBase(m);
    var desc := DescriptionJson(m.description);
    var ovs := ListJson("toolOverrides", MapSeq(OverrideJson, m.toolOverrides));
    var refs := ListJson("skillRefs", MapSeq(SkillRefJson, m.skillRefs));
    var exps := ListJson("webExposures", MapSeq(ExposureJson, m.webExposures));
    R.Through(base, desc, k);
    R.Through(base + desc, ovs, k);
    R.Through(base + desc + ovs, refs, k);
    R.Through(base + desc + ovs + refs, exps, k);
  }

  lemma {:induction false} ListsPrinted(m: Mcp, spec: Fields)
    requires spec == CrdSpec(m)
    ensures ListShape(spec, "toolOverrides", m.toolOverrides, OverrideShape)
    ensures ListShape(spec, "skillRefs", m.skillRefs, SkillShape)
  {
    forall i | 0 <= i < |m.toolOverrides| ensures OverrideShape(m.toolOverrides[i], OverrideJson(m.toolOverrides[i])) {
      OverridePrinted(m.toolOverrides[i]);
    }
    forall i | 0 <= i < |m.skillRefs| ensures SkillShape(m.skillRefs[i], SkillRefJson(m.skillRefs[i])) {
      SkillPrinted(m.skillRefs[i]);
    }
    SpecAt(m, "toolOverrides");
    SpecAt(m, "skillRefs");
    ListPrinted(spec, "toolOverrides", m.toolOverrides, MapSeq(OverrideJson, m.toolOverrides), OverrideShape);
    ListPrinted(spec, "skillRefs", m.skillRefs, MapSeq(SkillRefJson, m.skillRefs), SkillShape);
  }

  lemma {:induction false} ExposuresPrinted(m: Mcp, spec: Fields)
    requires spec == CrdSpec(m)
    ensures ExposuresShape(m, spec)
  {
    forall i | 0 <= i < |m.webExposures| ensures ExposureShape(m.webExposures[i], ExposureJson(m.webExposures[i])) {
      ExposurePrinted(m.webExposures[i]);
    }
    SpecAt(m, "webExposures");
  }

  lemma {:induction false} BasePrinted(m: Mcp, spec: Fields)
    requires spec == CrdSpec(m)
    ensures "enabled" in spec && spec["enabled"].Bool? && "forwardIdentity" in spec && spec["forwardIdentity"].Bool?
    ensures "gatewayRef" in spec && spec["gatewayRef"] == Obj(map["name" := Str(m.gateway.name)])
    ensures "source" in spec && spec["source"] == Obj(SourceJson(m.namespace, m.source))
    ensures Text(spec, "description")
  {
    SpecAt(m, "enabled");
    SpecAt(m, "gatewayRef");
    SpecAt(m, "source");
    SpecAt(m, "forwardIdentity");
    SpecAt(m, "description");
  }

  /** The shape of every printed resource. */
  lemma {:induction false} SpecPrinted(m: Mcp, spec: Fields)
    requires spec == CrdSpec(m)
    ensures SpecShape(m, spec)
  {
    forall k ensures k in spec <==> SpecKey(m, k) { SpecAt(m, k); }
    BasePrinted(m, spec);
    SourcePrinted(m.namespace, m.source);
    ListsPrinted(m, spec);
    ExposuresPrinted(m, spec);
  }
}
