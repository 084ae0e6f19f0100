/** What `mcp_from_add_body` reads, written as a relation between the JSON body and the record. */
module AddBodyReading {
  import opened Common
  import opened McpCodec
  import opened ManageMcp
  import opened ControlPlane
  import opened PyValues
  import opened McpReading
  import opened Search

  /** The first of two objects that has a true value under the key. */
  predicate EitherText(a: Fields, b: Fields, k: string, default: string, s: string) {
    if k in a && !Falsy(a[k]) then Says(a[k], s)
    else if k in b && !Falsy(b[k]) then Says(b[k], s)
    else s == default
  }

  predicate EitherCount(a: Fields, b: Fields, k: string, default: int, n: int) {
    if k in a && !Falsy(a[k]) then Counts(a[k], n)
    else if k in b && !Falsy(b[k]) then Counts(b[k], n)
    else n == default
  }

  /** A read-only reference by name and key. */
  predicate ReadsReference(j: Json, b: Option<SecretRef>) {
    && j.Obj? && b.Some? && !b.value.writable
    && TextAt(j.fields, "name", b.value.name) && TextOr(j.fields, "key", "token", b.value.key)
  }

  predicate ReadsBodyBearer(source: Fields, body: Fields, b: Option<SecretRef>) {
    if "bearerSecretRef" in source && !Falsy(source["bearerSecretRef"])
    then ReadsReference(source["bearerSecretRef"], b)
    else if "bearerSecretRef" in body && !Falsy(body["bearerSecretRef"])
    then ReadsReference(body["bearerSecretRef"], b)
    else b == None
  }

  /** The peer as the body spells it, in the four places it may stand. */
  predicate PeerText(ref: Fields, source: Fields, body: Fields, s: string) {
    if "name" in ref && !Falsy(ref["name"]) then Says(ref["name"], s)
    else if "peer" in source && !Falsy(source["peer"]) then Says(source["peer"], s)
    else if "peerGateway" in source && !Falsy(source["peerGateway"]) then Says(source["peerGateway"], s)
    else if "peerGateway" in body && !Falsy(body["peerGateway"]) then Says(body["peerGateway"], s)
    else s == ""
  }

  /** `ns/name` as written, or a name in the reference's namespace or else the gateway's. */
  predicate PeerFrom(g: GatewayKey, ref: Fields, text: string, peer: GatewayKey) {
    var t := Strip(text);
    && t != ""
    && if '/' in t then '/' !in peer.namespace && t == peer.namespace + "/" + peer.name
       else peer.name == t && TrueTextOr(ref, "namespace", g.namespace, peer.namespace)
  }

  ghost predicate ReadsBodyPeer(g: GatewayKey, source: Fields, body: Fields, peer: GatewayKey) {
    exists ref, text :: ObjectAt(source, "peerGatewayRef", ref) && PeerText(ref, source, body, text)
                        && PeerFrom(g, ref, text, peer)
  }

  ghost predicate ReadsBodyPorts(source: Fields, ports: seq<NamedPort>) {
    if "ports" in source && !Falsy(source["ports"]) then ReadsPorts(source, ports)
    else ports == [NamedPort("http", 8080, "TCP")]
  }

  ghost predicate ReadsBodySource(g: GatewayKey, source: Fields, body: Fields, s: Source) {
    match s
    case RemoteHttp(url, bearer) =>
      && TextOr(source, "type", "RemoteHttp", "RemoteHttp")
      && (exists text :: EitherText(source, body, "url", "", text) && url == Strip(text) && url != "")
      && ReadsBodyBearer(source, body, bearer)
    case ContainerImage(image, ports, endpoint, env) =>
      && TextOr(source, "type", "RemoteHttp", "ContainerImage")
      && (exists text :: EitherText(source, body, "image", "", text) && image == Strip(text) && image != "")
      && ReadsBodyPorts(source, ports) && ReadsEndpointAt(source, endpoint) && env == []
      && (exists bearer :: ReadsBodyBearer(source, body, bearer))
    case VmcpProxy(peer, path, port, bearer) =>
      && TextOr(source, "type", "RemoteHttp", "VmcpProxy")
      && ReadsBodyPeer(g, source, body, peer) && EitherText(source, body, "path", "/mcp-proxy", path)
      && EitherCount(source, body, "port", 8080, port) && ReadsBodyBearer(source, body, bearer)
  }

  /** The record that an add body describes. */
  ghost predicate ReadsBody(g: GatewayKey, name: string, body: Fields, m: Mcp) {
    && name != "" && Strip(name) == name && '/' !in name && Lower(name) == name
    && m.namespace == g.namespace && m.name == name && m.gateway == g
    && m.toolOverrides == [] && m.skillRefs == [] && m.webExposures == []
    && SwitchOr(body, "enabled", true, m.enabled) && SwitchOr(body, "forwardIdentity", false, m.forwardIdentity)
    && OptionalAt(body, "description", m.description)
    && exists source :: ObjectAt(body, "source", source) && ReadsBodySource(g, source, body, m.source)
  }

  // ---------------------------------------------------------------- agreement

  lemma {:induction false} EitherTextIff(a: Fields, b: Fields, k: string, default: string, s: string)
    ensures EitherStr(a, b, k, default) == Ok(s) <==> EitherText(a, b, k, default, s)
  {
    if k in a { TruthIs(a[k]); SaysIs(a[k], s); }
    if k in b { TruthIs(b[k]); SaysIs(b[k], s); }
  }

  lemma {:induction false} EitherCountIff(a: Fields, b: Fields, k: string, default: int, n: int)
    ensures PyInt(Or(Or(Get(a, k), Get(b, k)), Num(default))) == Ok(n) <==> EitherCount(a, b, k, default, n)
  {
    if k in a { TruthIs(a[k]); CountsIs(a[k], n); }
    if k in b { TruthIs(b[k]); CountsIs(b[k], n); }
  }

  lemma {:induction false} ReferenceIff(j: Json, b: Option<SecretRef>)
    requires Truthy(j)
    ensures BearerField(j) == Ok(b) <==> ReadsReference(j, b)
  {
    if j.Obj? && b.Some? {
      var o := j.fields;
      if "name" in o { SaysIs(o["name"], b.value.name); }
      if "key" in o { SaysIs(o["key"], b.value.key); }
    }
  }

  lemma {:induction false} BodyBearerIff(source: Fields, body: Fields, b: Option<SecretRef>)
    ensures BodyBearer(source, body) == Ok(b) <==> ReadsBodyBearer(source, body, b)
  {
    if "bearerSecretRef" in source {
      TruthIs(source["bearerSecretRef"]);
      if Truthy(source["bearerSecretRef"]) { ReferenceIff(source["bearerSecretRef"], b); }
    }
    if "bearerSecretRef" in body {
      TruthIs(body["bearerSecretRef"]);
      if Truthy(body["bearerSecretRef"]) { ReferenceIff(body["bearerSecretRef"], b); }
    }
  }

  function SpelledPeer(ref: Fields, source: Fields, body: Fields): Json {
    Or(Or(Or(Or(Get(ref, "name"), Get(source, "peer")), Get(source, "peerGateway")), Get(body, "peerGateway")), Str(""))
  }

  lemma {:induction false} PeerTextIff(ref: Fields, source: Fields, body: Fields, s: string)
    ensures PyStr(SpelledPeer(ref, source, body)) == Ok(s) <==> PeerText(ref, source, body, s)
  {
    if "name" in ref { TruthIs(ref["name"]); SaysIs(ref["name"], s); }
    if "peer" in source { TruthIs(source["peer"]); SaysIs(source["peer"], s); }
    if "peerGateway" in source { TruthIs(source["peerGateway"]); SaysIs(source["peerGateway"], s); }
    if "peerGateway" in body { TruthIs(body["peerGateway"]); SaysIs(body["peerGateway"], s); }
  }

  /** A text with a slash is split at its first one. */
  lemma {:induction false} SplitOnce(t: string, ns: string, n: string)
    requires '/' in t
    ensures IndexOf(t, '/') < |t|
    ensures (t[..IndexOf(t, '/')] == ns && t[IndexOf(t, '/') + 1..] == n) <==> '/' !in ns && t == ns + "/" + n
  {
    var i := IndexOf(t, '/');
    var j :| 0 <= j < |t| && t[j] == '/';
    assert i <= j;
    if '/' !in ns && t == ns + "/" + n {
      assert t[|ns|] == '/' && forall m | 0 <= m < |ns| :: t[m] == ns[m] && ns[m] in ns;
      assert i == |ns|;
    }
  }

  /** What the text gives, for one text. */
  function PeerOf(g: GatewayKey, ref: Fields, text: string): Outcome<GatewayKey> {
    var peer := Strip(text);
    var i := IndexOf(peer, '/');
    if peer == "" then Err(Invalid)
    else if i < |peer| then Ok(GatewayKey(peer[..i], peer[i + 1..]))
    else match StrOr(ref, "namespace", g.namespace)
      case Ok(ns) => Ok(GatewayKey(ns, peer))
      case Err(_) => Err(Invalid)
  }

  lemma {:induction false} PeerOfIff(g: GatewayKey, ref: Fields, text: string, peer: GatewayKey)
    ensures PeerOf(g, ref, text) == Ok(peer) <==> PeerFrom(g, ref, text, peer)
  {
    var t := Strip(text);
    if '/' in t { SplitOnce(t, peer.namespace, peer.name); }
    TrueTextIff(ref, "namespace", g.namespace, peer.namespace);
  }

  lemma {:induction false} BodyPeerIsOf(g: GatewayKey, ref: Fields, source: Fields, body: Fields)
    requires ObjGet(source, "peerGatewayRef") == Ok(ref)
    ensures BodyPeer(g, source, body) == match PyStr(SpelledPeer(ref, source, body))
                                         case Err(_) => Err(Invalid)
                                         case Ok(text) => PeerOf(g, ref, text)
  {
  }

  lemma {:induction false} BodyPeerOver(g: GatewayKey, ref: Fields, source: Fields, body: Fields, peer: GatewayKey)
    requires ObjGet(source, "peerGatewayRef") == Ok(ref)
    ensures BodyPeer(g, source, body) == Ok(peer)
       <==> exists text :: PeerText(ref, source, body, text) && PeerFrom(g, ref, text, peer)
  {
    BodyPeerIsOf(g, ref, source, body);
    forall s ensures PyStr(SpelledPeer(ref, source, body)) == Ok(s) <==> PeerText(ref, source, body, s) {
      PeerTextIff(ref, source, body, s);
    }
    if PyStr(SpelledPeer(ref, source, body)).Ok? {
      PeerOfIff(g, ref, PyStr(SpelledPeer(ref, source, body)).value, peer);
    }
  }

  lemma {:induction false} BodyPeerIff(g: GatewayKey, source: Fields, body: Fields, peer: GatewayKey)
    ensures BodyPeer(g, source, body) == Ok(peer) <==> ReadsBodyPeer(g, source, body, peer)
  {
    forall ref ensures ObjGet(source, "peerGatewayRef") == Ok(ref) <==> ObjectAt(source, "peerGatewayRef", ref) {
      ObjectIff(source, "peerGatewayRef", ref);
    }
    if ObjGet(source, "peerGatewayRef").Ok? {
      BodyPeerOver(g, ObjGet(source, "peerGatewayRef").value, source, body, peer);
    }
  }

  lemma {:induction false} BodyPortsIff(source: Fields, ports: seq<NamedPort>)
    ensures BodyPorts(source) == Ok(ports) <==> ReadsBodyPorts(source, ports)
  {
    if "ports" in source { TruthIs(source["ports"]); }
    PortsIff(source, ports);
  }

  lemma {:induction false} KindIff(source: Fields, kind: string)
    ensures StrGet(source, "type", "RemoteHttp") == Ok(kind) <==> TextOr(source, "type", "RemoteHttp", kind)
  {
    if "type" in source { SaysIs(source["type"], kind); }
  }

  lemma {:induction false} StrippedIff(a: Fields, b: Fields, k: string, s: string)
    ensures (EitherStr(a, b, k, "").Ok? && Strip(EitherStr(a, b, k, "").value) == s)
       <==> exists text :: EitherText(a, b, k, "", text) && s == Strip(text)
  {
    forall text ensures EitherStr(a, b, k, "") == Ok(text) <==> EitherText(a, b, k, "", text) {
      EitherTextIff(a, b, k, "", text);
    }
  }

  lemma {:induction false} ProxyFromBody(g: GatewayKey, source: Fields, body: Fields, given: Option<SecretRef>,
                                         s: Source)
    ensures BodyProxy(g, source, body, given) == Ok(s) <==>
              && s.VmcpProxy? && ReadsBodyPeer(g, source, body, s.peer)
              && EitherText(source, body, "path", "/mcp-proxy", s.path)
              && EitherCount(source, body, "port", 8080, s.port) && s.bearer == given
  {
    if s.VmcpProxy? {
      BodyPeerIff(g, source, body, s.peer);
      EitherTextIff(source, body, "path", "/mcp-proxy", s.path);
      EitherCountIff(source, body, "port", 8080, s.port);
    }
  }

  lemma {:induction false} RemoteFromBody(g: GatewayKey, source: Fields, body: Fields, given: Option<SecretRef>,
                                          s: Source)
    requires StrGet(source, "type", "RemoteHttp") == Ok("RemoteHttp")
    ensures BodySource(g, source, body, given) == Ok(s) <==>
              && s.RemoteHttp? && s.bearer == given && s.url != ""
              && exists text :: EitherText(source, body, "url", "", text) && s.url == Strip(text)
  {
    if s.RemoteHttp? { StrippedIff(source, body, "url", s.url); }
  }

  lemma {:induction false} ImageFromBody(g: GatewayKey, source: Fields, body: Fields, given: Option<SecretRef>,
                                         s: Source)
    requires StrGet(source, "type", "RemoteHttp") == Ok("ContainerImage")
    ensures BodySource(g, source, body, given) == Ok(s) <==>
              && s.ContainerImage? && s.env == [] && s.image != ""
              && (exists text :: EitherText(source, body, "image", "", text) && s.image == Strip(text))
              && ReadsBodyPorts(source, s.ports) && ReadsEndpointAt(source, s.endpoint)
  {
    if s.ContainerImage? {
      StrippedIff(source, body, "image", s.image);
      BodyPortsIff(source, s.ports);
      EndpointIff(source, s.endpoint);
    }
  }

  /** A source, apart from its bearer reference. */
  ghost predicate ReadsBodyParts(g: GatewayKey, source: Fields, body: Fields, s: Source) {
    match s
    case RemoteHttp(url, _) =>
      && TextOr(source, "type", "RemoteHttp", "RemoteHttp") && url != ""
      && exists text :: EitherText(source, body, "url", "", text) && url == Strip(text)
    case ContainerImage(image, ports, endpoint, env) =>
      && TextOr(source, "type", "RemoteHttp", "ContainerImage") && image != "" && env == []
      && (exists text :: EitherText(source, body, "image", "", text) && image == Strip(text))
      && ReadsBodyPorts(source, ports) && ReadsEndpointAt(source, endpoint)
    case VmcpProxy(peer, path, port, _) =>
      && TextOr(source, "type", "RemoteHttp", "VmcpProxy")
      && ReadsBodyPeer(g, source, body, peer) && EitherText(source, body, "path", "/mcp-proxy", path)
      && EitherCount(source, body, "port", 8080, port)
  }

  lemma {:induction false} SourceGiven(g: GatewayKey, source: Fields, body: Fields, given: Option<SecretRef>,
                                       s: Source)
    ensures BodySource(g, source, body, given) == Ok(s)
       <==> ReadsBodyParts(g, source, body, s) && (!s.ContainerImage? ==> s.bearer == given)
  {
    KindIff(source, "RemoteHttp");
    KindIff(source, "ContainerImage");
    KindIff(source, "VmcpProxy");
    if StrGet(source, "type", "RemoteHttp") == Ok("RemoteHttp") {
      RemoteFromBody(g, source, body, given, s);
    } else if StrGet(source, "type", "RemoteHttp") == Ok("ContainerImage") {
      ImageFromBody(g, source, body, given, s);
    } else if StrGet(source, "type", "RemoteHttp") == Ok("VmcpProxy") {
      ProxyFromBody(g, source, body, given, s);
    }
  }

  lemma {:induction false} SourceFromBody(g: GatewayKey, source: Fields, body: Fields, s: Source)
    ensures (BodyBearer(source, body).Ok? && BodySource(g, source, body, BodyBearer(source, body).value) == Ok(s))
       <==> ReadsBodySource(g, source, body, s)
  {
    forall b ensures BodyBearer(source, body) == Ok(b) <==> ReadsBodyBearer(source, body, b) {
      BodyBearerIff(source, body, b);
    }
    if BodyBearer(source, body).Ok? { SourceGiven(g, source, body, BodyBearer(source, body).value, s); }
  }

  /** `mcp_from_add_body` gives a record exactly when the body describes it. */
  lemma {:induction false} FromAddBodyIff(g: GatewayKey, name: string, body: Fields, m: Mcp)
    ensures FromAddBody(g, name, body) == Ok(m) <==> ReadsBody(g, name, body, m)
  {
    forall source ensures ObjGet(body, "source") == Ok(source) <==> ObjectAt(body, "source", source) {
      ObjectIff(body, "source", source);
    }
    OptionalIff(body, "description", m.description);
    SwitchIff(body, "enabled", true, m.enabled);
    SwitchIff(body, "forwardIdentity", false, m.forwardIdentity);
    if ObjGet(body, "source").Ok? { SourceFromBody(g, ObjGet(body, "source").value, body, m.source); }
  }

  lemma {:induction false} BareSource(g: GatewayKey, source: Fields, body: Fields, image: string)
    requires source.Keys == {"type", "image"}
    requires source["type"] == Str("ContainerImage") && source["image"] == Str(image)
    requires "bearerSecretRef" !in body && Strip(image) != ""
    ensures ReadsBodySource(g, source, body, ContainerImage(Strip(image), [NamedPort("http", 8080, "TCP")],
                                                            McpEndpoint("http", "/mcp"), []))
  {
    assert "type" in source && "image" in source && "ports" !in source && "mcpEndpoint" !in source;
    assert EitherText(source, body, "image", "", image);
    assert ObjectAt(source, "mcpEndpoint", map[]) && ReadsEndpoint(map[], McpEndpoint("http", "/mcp"));
    assert "bearerSecretRef" !in source;
    assert ReadsBodyBearer(source, body, None);
  }

  /** A body with a type and an image and nothing else. */
  lemma {:induction false} BareImage(g: GatewayKey, name: string, image: string, source: Fields, body: Fields)
    requires name != "" && Strip(name) == name && '/' !in name && Lower(name) == name && Strip(image) != ""
    requires source == map["type" := Str("ContainerImage"), "image" := Str(image)]
    requires body == map["source" := Obj(source)]
    ensures FromAddBody(g, name, body)
         == Ok(Mcp(g.namespace, name, g, true, None,
                   ContainerImage(Strip(image), [NamedPort("http", 8080, "TCP")], McpEndpoint("http", "/mcp"), []),
                   [], [], [], false))
  {
    var s := ContainerImage(Strip(image), [NamedPort("http", 8080, "TCP")], McpEndpoint("http", "/mcp"), []);
    assert source.Keys == {"type", "image"} && "type" in source;
    assert body.Keys == {"source"} && "source" in body;
    BareSource(g, source, body, image);
    assert ObjectAt(body, "source", source);
    var m := Mcp(g.namespace, name, g, true, None, s, [], [], [], false);
    assert ReadsBody(g, name, body, m);
    FromAddBodyIff(g, name, body, m);
  }
}
