/** What may be left out of a custom resource: dropping an optional key leaves the record as it is exactly when the
    record has the value that stands for the key's absence. */
module McpDefaults {
  import opened Common
  import opened McpCodec
  import opened McpCodecRoundTrip
  import opened PyValues
  import opened McpReading

  /** Two objects that agree but for one key. */
  ghost predicate AgreeBut(a: Fields, b: Fields, k: string) {
    forall j | j != k :: (j in a <==> j in b) && (j in a ==> a[j] == b[j])
  }

  // ---------------------------------------------------------------- switches

  lemma {:induction false} SpecBut(namespace: string, name: string, spec: Fields, other: Fields, k: string, m: Mcp)
    requires AgreeBut(spec, other, k) && MapMcp(namespace, name, spec) == Ok(m)
    ensures k == "enabled" ==> (MapMcp(namespace, name, other) == Ok(m) <==> SwitchOr(other, k, true, m.enabled))
    ensures k == "forwardIdentity" ==>
              (MapMcp(namespace, name, other) == Ok(m) <==> SwitchOr(other, k, false, m.forwardIdentity))
    ensures k == "source" ==> (MapMcp(namespace, name, other) == Ok(m) <==> MapSource(namespace, other) == Ok(m.source))
  {
    PartByPart(namespace, name, spec, m);
    PartByPart(namespace, name, other, m);
    SwitchIff(other, "enabled", true, m.enabled);
    SwitchIff(other, "forwardIdentity", false, m.forwardIdentity);
  }

  /** `enabled` may be left out exactly when it is true, `forwardIdentity` exactly when it is false. */
  lemma {:induction false} SwitchesMayGo(namespace: string, name: string, spec: Fields, m: Mcp)
    requires MapMcp(namespace, name, spec) == Ok(m)
    ensures MapMcp(namespace, name, spec - {"enabled"}) == Ok(m) <==> m.enabled == true
    ensures MapMcp(namespace, name, spec - {"forwardIdentity"}) == Ok(m) <==> m.forwardIdentity == false
  {
    SpecBut(namespace, name, spec, spec - {"enabled"}, "enabled", m);
    SpecBut(namespace, name, spec, spec - {"forwardIdentity"}, "forwardIdentity", m);
  }

  // ---------------------------------------------------------------- sources

  /** Another source object gives the same record exactly when it describes the same source. */
  lemma {:induction false} OtherSource(namespace: string, name: string, spec: Fields, o: Fields, m: Mcp)
    requires MapMcp(namespace, name, spec) == Ok(m)
    ensures MapMcp(namespace, name, spec["source" := Obj(o)]) == Ok(m) <==> ReadsSource(namespace, o, m.source)
  {
    SpecBut(namespace, name, spec, spec["source" := Obj(o)], "source", m);
    SourceIff(namespace, spec["source" := Obj(o)], m.source);
  }

  /** Each part of a source is read from its own key. */
  lemma {:induction false} OwnKeys(namespace: string, o: Fields, other: Fields, k: string)
    requires AgreeBut(o, other, k)
    ensures k != "ports" ==> forall ports :: ReadsPorts(other, ports) <==> ReadsPorts(o, ports)
    ensures k != "mcpEndpoint" ==> forall e :: ReadsEndpointAt(other, e) <==> ReadsEndpointAt(o, e)
    ensures k != "env" ==> forall env :: ReadsEnvAt(other, env) <==> ReadsEnvAt(o, env)
    ensures k != "peerGatewayRef" ==>
              forall peer :: ReadsPeerAt(namespace, other, peer) <==> ReadsPeerAt(namespace, o, peer)
    ensures k != "bearerSecretRef" ==> forall b :: ReadsBearer(other, b) <==> ReadsBearer(o, b)
  {
    assert forall j, items | j != k :: ListAt(other, j, items) <==> ListAt(o, j, items);
    assert forall j, sub | j != k :: ObjectAt(other, j, sub) <==> ObjectAt(o, j, sub);
    if k != "mcpEndpoint" {
      forall e ensures ReadsEndpointAt(other, e) <==> ReadsEndpointAt(o, e) {
      }
    }
  }

  lemma {:induction false} ProxyBut(namespace: string, o: Fields, other: Fields, k: string, s: Source)
    requires AgreeBut(o, other, k) && s.VmcpProxy? && ReadsSource(namespace, o, s)
    ensures k == "path" ==> (ReadsSource(namespace, other, s) <==> TrueTextOr(other, "path", "/mcp-proxy", s.path))
    ensures k == "port" ==> (ReadsSource(namespace, other, s) <==> ReadsProxyPort(other, s.port))
    ensures k == "bearerSecretRef" ==> (ReadsSource(namespace, other, s) <==> ReadsBearer(other, s.bearer))
  {
    OwnKeys(namespace, o, other, k);
  }

  /** A proxy's path and port. */
  lemma {:induction false} ProxyDefaults(namespace: string, o: Fields, s: Source)
    requires s.VmcpProxy? && ReadsSource(namespace, o, s)
    ensures ReadsSource(namespace, o - {"path"}, s) <==> s.path == "/mcp-proxy"
    ensures ReadsSource(namespace, o - {"port"}, s) <==> s.port == 8080
  {
    ProxyBut(namespace, o, o - {"path"}, "path", s);
    ProxyBut(namespace, o, o - {"port"}, "port", s);
  }

  /** The key of a bearer reference. */
  lemma {:induction false} BearerKeyDefault(namespace: string, o: Fields, sub: Fields, s: Source)
    requires !s.ContainerImage? && ReadsSource(namespace, o, s) && s.bearer.Some?
    requires "bearerSecretRef" in o && o["bearerSecretRef"] == Obj(sub)
    ensures ReadsSource(namespace, o["bearerSecretRef" := Obj(sub - {"key"})], s) <==> s.bearer.value.key == "token"
    ensures ReadsSource(namespace, o["bearerSecretRef" := Obj(sub - {"writable"})], s) <==> !s.bearer.value.writable
  {
    SecretWithout(namespace, o, sub, s, "key");
    SecretWithout(namespace, o, sub, s, "writable");
  }

  lemma {:induction false} SecretWithout(namespace: string, o: Fields, sub: Fields, s: Source, k: string)
    requires !s.ContainerImage? && ReadsSource(namespace, o, s) && s.bearer.Some? && (k == "key" || k == "writable")
    requires "bearerSecretRef" in o && o["bearerSecretRef"] == Obj(sub)
    ensures ReadsSource(namespace, o["bearerSecretRef" := Obj(sub - {k})], s)
       <==> if k == "key" then s.bearer.value.key == "token" else !s.bearer.value.writable
  {
    var other := o["bearerSecretRef" := Obj(sub - {k})];
    if s.VmcpProxy? { ProxyBut(namespace, o, other, "bearerSecretRef", s); }
    assert ReadsBearer(o, s.bearer) && "name" in sub;
    assert "name" in sub - {k};
  }

  lemma {:induction false} ContainerBut(namespace: string, o: Fields, other: Fields, k: string, s: Source)
    requires AgreeBut(o, other, k) && s.ContainerImage? && ReadsSource(namespace, o, s)
    ensures k == "mcpEndpoint" ==> (ReadsSource(namespace, other, s) <==> ReadsEndpointAt(other, s.endpoint))
    ensures k == "ports" ==> (ReadsSource(namespace, other, s) <==> ReadsPorts(other, s.ports))
  {
    OwnKeys(namespace, o, other, k);
  }

  /** A container's endpoint, as a whole and key by key. */
  lemma {:induction false} EndpointDefaults(namespace: string, o: Fields, s: Source)
    requires s.ContainerImage? && ReadsSource(namespace, o, s)
    ensures ReadsSource(namespace, o - {"mcpEndpoint"}, s) <==> s.endpoint == McpEndpoint("http", "/mcp")
    ensures ReadsSource(namespace, o["mcpEndpoint" := Obj(map["path" := Str(s.endpoint.path)])], s)
       <==> s.endpoint.portName == "http"
    ensures ReadsSource(namespace, o["mcpEndpoint" := Obj(map["portName" := Str(s.endpoint.portName)])], s)
       <==> s.endpoint.path == "/mcp"
  {
    EndpointAs(namespace, o, o - {"mcpEndpoint"}, map[], s);
    EndpointGiven(namespace, o, "path", s.endpoint.path, s);
    EndpointGiven(namespace, o, "portName", s.endpoint.portName, s);
  }

  lemma {:induction false} EndpointGiven(namespace: string, o: Fields, k: string, v: string, s: Source)
    requires s.ContainerImage? && ReadsSource(namespace, o, s) && (k == "path" || k == "portName")
    ensures ReadsSource(namespace, o["mcpEndpoint" := Obj(map[k := Str(v)])], s)
       <==> ReadsEndpoint(map[k := Str(v)], s.endpoint)
  {
    var sub := map[k := Str(v)];
    assert k in sub;
    EndpointAs(namespace, o, o["mcpEndpoint" := Obj(sub)], sub, s);
  }

  lemma {:induction false} EndpointAs(namespace: string, o: Fields, other: Fields, sub: Fields, s: Source)
    requires s.ContainerImage? && ReadsSource(namespace, o, s) && AgreeBut(o, other, "mcpEndpoint")
    requires forall x :: ObjectAt(other, "mcpEndpoint", x) <==> x == sub
    ensures ReadsSource(namespace, other, s) <==> ReadsEndpoint(sub, s.endpoint)
  {
    ContainerBut(namespace, o, other, "mcpEndpoint", s);
    assert ObjectAt(other, "mcpEndpoint", sub);
  }

  lemma {:induction false} PortsAre(o: Fields, items: seq<Json>, ports: seq<NamedPort>)
    requires items != [] && "ports" in o && o["ports"] == Arr(items)
    ensures ReadsPorts(o, ports) <==> |items| == |ports| && forall i | 0 <= i < |items| :: ReadsPort(items[i], ports[i])
  {
    assert ListAt(o, "ports", items);
    assert forall x | ListAt(o, "ports", x) :: x == items;
  }

  lemma {:induction false} BarePort(j: Json, p: NamedPort)
    requires ReadsPort(j, p)
    ensures ReadsPort(Obj(j.fields - {"protocol"}), p) <==> p.protocol == "TCP"
  {
  }

  lemma {:induction false} OnePort(items: seq<Json>, ports: seq<NamedPort>, i: nat, j: Json)
    requires |items| == |ports| && i < |items| && forall n | 0 <= n < |items| :: ReadsPort(items[n], ports[n])
    ensures (forall n | 0 <= n < |items| :: ReadsPort(items[i := j][n], ports[n])) <==> ReadsPort(j, ports[i])
  {
    var less := items[i := j];
    assert less[i] == j;
    forall n | 0 <= n < |items| && n != i ensures ReadsPort(less[n], ports[n]) {
      assert less[n] == items[n];
    }
  }

  /** The protocol of a port. */
  lemma {:induction false} ProtocolDefault(namespace: string, o: Fields, items: seq<Json>, s: Source, i: nat)
    requires s.ContainerImage? && ReadsSource(namespace, o, s)
    requires "ports" in o && o["ports"] == Arr(items) && i < |items| && items[i].Obj?
    ensures |s.ports| == |items|
    ensures ReadsSource(namespace, o["ports" := Arr(items[i := Obj(items[i].fields - {"protocol"})])], s)
       <==> s.ports[i].protocol == "TCP"
  {
    var bare := Obj(items[i].fields - {"protocol"});
    PortsAre(o, items, s.ports);
    BarePort(items[i], s.ports[i]);
    OnePort(items, s.ports, i, bare);
    PortsAre(o["ports" := Arr(items[i := bare])], items[i := bare], s.ports);
    ContainerBut(namespace, o, o["ports" := Arr(items[i := bare])], "ports", s);
  }
}
