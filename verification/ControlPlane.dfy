/** The control-plane use cases over the custom-resource catalog, and why nobody can tell it from the dict. */
module ControlPlane {
  import opened Common
  import opened McpCodec
  import opened McpCodecRoundTrip
  import opened Catalog
  import opened ManageMcp
  import opened Search

  /** A use case refuses a command, or a stored object does not parse. */
  datatype KubeFault = Refused(fault: Fault) | Broken(error: Error)

  type KubeOutcome = Result<Mcp, KubeFault>

  function Lift(r: Outcome<Mcp>): KubeOutcome {
    match r
    case Ok(m) => Ok(m)
    case Err(f) => Err(Refused(f))
  }

  function Mapped(r: Res<Mcp>): KubeOutcome {
    match r
    case Ok(m) => Ok(m)
    case Err(e) => Err(Broken(e))
  }

  // ---------------------------------------------------------------- commands

  /** `upsert`, answered with the record read back. */
  function Store(crs: CrStore, m: Mcp): (CrStore, KubeOutcome) {
    if m.gateway.namespace != m.namespace then (crs, Err(Broken(ValueError)))
    else (crs[(m.namespace, m.name) := CrdSpec(m)], Mapped(MapMcp(m.namespace, m.name, CrdSpec(m))))
  }

  function KubeOwned(crs: CrStore, g: GatewayKey, name: string): KubeOutcome {
    match KubeGet(crs, g.namespace, name)
    case Err(e) => Err(Broken(e))
    case Ok(None) => Err(Refused(NotFound))
    case Ok(Some(m)) => if m.gateway == g then Ok(m) else Err(Refused(NotFound))
  }

  function KubeAdd(crs: CrStore, gws: Gateways, m: Mcp): (CrStore, KubeOutcome) {
    if !ValidMcp(m) then (crs, Err(Refused(Invalid)))
    else if m.gateway !in gws then (crs, Err(Refused(NotFound)))
    else match ResolveProxy(gws, m)
      case Err(f) => (crs, Err(Refused(f)))
      case Ok(m') =>
        match KubeGet(crs, m'.namespace, m'.name)
        case Err(e) => (crs, Err(Broken(e)))
        case Ok(Some(_)) => (crs, Err(Refused(Conflict)))
        case Ok(None) => Store(crs, m')
  }

  function KubeUpdate(crs: CrStore, gws: Gateways, g: GatewayKey, name: string, fields: map<string, Json>)
    : (CrStore, KubeOutcome)
  {
    if g !in gws then (crs, Err(Refused(NotFound)))
    else match KubeOwned(crs, g, name)
      case Err(f) => (crs, Err(f))
      case Ok(m) =>
        match ApplyFields(m, fields)
        case Err(f) => (crs, Err(Refused(f)))
        case Ok(m') =>
          if !ValidMcp(m') then (crs, Err(Refused(Invalid)))
          else match ResolveProxy(gws, m')
            case Err(f) => (crs, Err(Refused(f)))
            case Ok(stored) => Store(crs, stored)
  }

  function KubeRemove(crs: CrStore, gws: Gateways, g: GatewayKey, name: string): (CrStore, KubeOutcome) {
    if g !in gws then (crs, Err(Refused(NotFound)))
    else match KubeOwned(crs, g, name)
      case Err(f) => (crs, Err(f))
      case Ok(m) => (crs - {(g.namespace, name)}, Ok(m))
  }

  function KubeDo(crs: CrStore, gws: Gateways, c: Command): (CrStore, KubeOutcome) {
    match c
    case Add(m) => KubeAdd(crs, gws, m)
    case Update(g, name, fields) => KubeUpdate(crs, gws, g, name, fields)
    case Remove(g, name) => KubeRemove(crs, gws, g, name)
  }

  // ---------------------------------------------------------------- the use cases

  /** `AddMcp.execute` over the resources. */
  method AddMcp(catalog: KubeMcpCatalog, gws: Gateways, m: Mcp) returns (r: KubeOutcome)
    modifies catalog
    ensures (catalog.crs, r) == KubeDo(old(catalog.crs), gws, Add(m))
  {
    if !ValidMcp(m) {
      return Err(Refused(Invalid));
    }
    if m.gateway !in gws {
      return Err(Refused(NotFound));
    }
    var resolved := ResolveProxy(gws, m);
    if resolved.Err? {
      return Err(Refused(resolved.error));
    }
    var existing := catalog.Get(resolved.value.namespace, resolved.value.name);
    if existing.Err? {
      return Err(Broken(existing.error));
    }
    if existing.value.Some? {
      return Err(Refused(Conflict));
    }
    var stored := catalog.Upsert(resolved.value);
    r := Mapped(stored);
  }

  /** `UpdateMcp.execute` over the resources. */
  method UpdateMcp(catalog: KubeMcpCatalog, gws: Gateways, g: GatewayKey, name: string, fields: map<string, Json>)
    returns (r: KubeOutcome)
    modifies catalog
    ensures (catalog.crs, r) == KubeDo(old(catalog.crs), gws, Update(g, name, fields))
  {
    if g !in gws {
      return Err(Refused(NotFound));
    }
    var current := catalog.Get(g.namespace, name);
    if current.Err? {
      return Err(Broken(current.error));
    }
    if current.value.None? || current.value.value.gateway != g {
      return Err(Refused(NotFound));
    }
    var updated := ApplyMcpFields(current.value.value, fields);
    if updated.Err? {
      return Err(Refused(updated.error));
    }
    if !ValidMcp(updated.value) {
      return Err(Refused(Invalid));
    }
    var resolved := ResolveProxy(gws, updated.value);
    if resolved.Err? {
      return Err(Refused(resolved.error));
    }
    var stored := catalog.Upsert(resolved.value);
    r := Mapped(stored);
  }

  /** `RemoveMcp.execute` over the resources. */
  method RemoveMcp(catalog: KubeMcpCatalog, gws: Gateways, g: GatewayKey, name: string) returns (r: KubeOutcome)
    modifies catalog
    ensures (catalog.crs, r) == KubeDo(old(catalog.crs), gws, Remove(g, name))
  {
    if g !in gws {
      return Err(Refused(NotFound));
    }
    var current := catalog.Get(g.namespace, name);
    if current.Err? {
      return Err(Broken(current.error));
    }
    if current.value.None? || current.value.value.gateway != g {
      return Err(Refused(NotFound));
    }
    var gone := catalog.Delete(g.namespace, name);
    if !gone {
      return Err(Refused(NotFound));
    }
    r := Ok(current.value.value);
  }

  // ---------------------------------------------------------------- canonical records stay canonical

  lemma {:induction false} SettersKeepCanonical(ns: string, s: Source, fields: map<string, Json>)
    requires CanonicalSource(ns, s)
    ensures SetUrl(s, fields).Ok? ==> CanonicalSource(ns, SetUrl(s, fields).value)
    ensures SetImage(s, fields).Ok? ==> CanonicalSource(ns, SetImage(s, fields).value)
    ensures SetBearer(s, fields).Ok? ==> CanonicalSource(ns, SetBearer(s, fields).value)
    ensures SetPath(s, fields).Ok? ==> CanonicalSource(ns, SetPath(s, fields).value)
  {
  }

  lemma {:induction false} ApplyKeepsCanonical(m: Mcp, fields: map<string, Json>)
    requires Canonical(m) && ApplyFields(m, fields).Ok?
    ensures Canonical(ApplyFields(m, fields).value)
  {
    var ns := m.namespace;
    SettersKeepCanonical(ns, m.source, fields);
    var s1 := SetUrl(m.source, fields).value;
    SettersKeepCanonical(ns, s1, fields);
    var s2 := SetImage(s1, fields).value;
    SettersKeepCanonical(ns, s2, fields);
    SettersKeepCanonical(ns, SetBearer(s2, fields).value, fields);
  }

  /** An inherited path is not empty, and nothing else changes. */
  lemma {:induction false} ResolveKeepsCanonical(gws: Gateways, m: Mcp)
    requires ValidMcp(m) && ResolveProxy(gws, m).Ok?
    ensures Canonical(ResolveProxy(gws, m).value) <==> Canonical(m)
  {
    StripBlank("");
    var r := ResolveProxy(gws, m).value;
    assert CanonicalSource(r.namespace, r.source) <==> CanonicalSource(m.namespace, m.source);
  }

  // ---------------------------------------------------------------- records from add bodies

  /** `a or b`. */
  function Or(a: Json, b: Json): Json {
    if Truthy(a) then a else b
  }

  /** `str(source.get(k) or body.get(k) or default)`. */
  function EitherStr(source: map<string, Json>, body: map<string, Json>, k: string, default: string): Res<string> {
    PyStr(Or(Or(Get(source, k), Get(body, k)), Str(default)))
  }

  function BodyBearer(source: map<string, Json>, body: map<string, Json>): Outcome<Option<SecretRef>> {
    var j := Or(Get(source, "bearerSecretRef"), Get(body, "bearerSecretRef"));
    if Truthy(j) then BearerField(j) else Ok(None)
  }

  /** The peer as written: `ns/name`, or a name beside an optional namespace. */
  function BodyPeer(g: GatewayKey, source: map<string, Json>, body: map<string, Json>): Outcome<GatewayKey> {
    match ObjGet(source, "peerGatewayRef")
    case Err(_) => Err(Invalid)
    case Ok(ref) =>
      var named :=
        Or(Or(Or(Get(ref, "name"), Get(source, "peer")), Get(source, "peerGateway")), Get(body, "peerGateway"));
      match PyStr(Or(named, Str("")))
      case Err(_) => Err(Invalid)
      case Ok(text) =>
        var peer := Strip(text);
        var i := IndexOf(peer, '/');
        if peer == "" then Err(Invalid)
        else if i < |peer| then Ok(GatewayKey(peer[..i], peer[i + 1..]))
        else match StrOr(ref, "namespace", g.namespace)
          case Ok(ns) => Ok(GatewayKey(ns, peer))
          case Err(_) => Err(Invalid)
  }

  function BodyPorts(source: map<string, Json>): Res<seq<NamedPort>> {
    if Truthy(Get(source, "ports")) then MapPorts(source) else Ok([NamedPort("http", 8080, "TCP")])
  }

  function BodyProxy(g: GatewayKey, source: map<string, Json>, body: map<string, Json>, bearer: Option<SecretRef>)
    : Outcome<Source>
  {
    match (BodyPeer(g, source, body), EitherStr(source, body, "path", DEFAULT_PATH),
           PyInt(Or(Or(Get(source, "port"), Get(body, "port")), Num(8080))))
    case (Ok(peer), Ok(path), Ok(port)) => Ok(VmcpProxy(peer, path, port, bearer))
    case _ => Err(Invalid)
  }

  function BodySource(g: GatewayKey, source: map<string, Json>, body: map<string, Json>, bearer: Option<SecretRef>)
    : Outcome<Source>
  {
    match StrGet(source, "type", "RemoteHttp")
    case Err(_) => Err(Invalid)
    case Ok(kind) =>
      if kind == "RemoteHttp" then
        match EitherStr(source, body, "url", "")
        case Ok(url) => if Strip(url) == "" then Err(Invalid) else Ok(RemoteHttp(Strip(url), bearer))
        case Err(_) => Err(Invalid)
      else if kind == "ContainerImage" then
        match (EitherStr(source, body, "image", ""), BodyPorts(source), MapEndpoint(source))
        case (Ok(image), Ok(ports), Ok(endpoint)) =>
          if Strip(image) == "" then Err(Invalid) else Ok(ContainerImage(Strip(image), ports, endpoint, []))
        case _ => Err(Invalid)
      else if kind == "VmcpProxy" then BodyProxy(g, source, body, bearer)
      else Err(Invalid)
  }

  /** `mcp_from_add_body`. */
  function FromAddBody(g: GatewayKey, name: string, body: map<string, Json>): Outcome<Mcp> {
    if name == "" || Strip(name) != name || '/' in name || Lower(name) != name then Err(Invalid)
    else match ObjGet(body, "source")
      case Err(_) => Err(Invalid)
      case Ok(source) =>
        match (BodyBearer(source, body), OptGet(body, "description"))
        case (Ok(bearer), Ok(description)) =>
          (match BodySource(g, source, body, bearer)
           case Err(f) => Err(f)
           case Ok(s) =>
             Ok(Mcp(g.namespace, name, g, BoolGet(body, "enabled", true), description, s, [], [], [],
                    BoolGet(body, "forwardIdentity", false))))
        case _ => Err(Invalid)
  }

  /** A peer that the codec reads back. */
  predicate PeerKept(m: Mcp) {
    m.source.VmcpProxy? ==> m.source.peer.name != "" && (m.source.peer.namespace == "" ==> m.namespace == "")
  }

  lemma {:induction false} BodyProxyForm(g: GatewayKey, source: map<string, Json>, body: map<string, Json>,
                                         bearer: Option<SecretRef>)
    requires BodyProxy(g, source, body, bearer).Ok?
    ensures var s := BodyProxy(g, source, body, bearer).value;
            s.VmcpProxy? && s.path != "" && s.port != 0 && s.bearer == bearer
  {
    assert Truthy(Or(Or(Get(source, "path"), Get(body, "path")), Str(DEFAULT_PATH)));
    assert Truthy(Or(Or(Get(source, "port"), Get(body, "port")), Num(8080)));
  }

  lemma {:induction false} BodySourceForm(g: GatewayKey, source: map<string, Json>, body: map<string, Json>,
                                          bearer: Option<SecretRef>)
    requires BodySource(g, source, body, bearer).Ok? && ReadOnlyRef(bearer)
    ensures var s := BodySource(g, source, body, bearer).value;
            match s
            case RemoteHttp(_, b) => b == bearer
            case ContainerImage(_, _, _, env) => env == []
            case VmcpProxy(_, path, port, b) => path != "" && port != 0 && b == bearer
  {
    var kind := StrGet(source, "type", "RemoteHttp").value;
    if kind != "RemoteHttp" && kind != "ContainerImage" {
      BodyProxyForm(g, source, body, bearer);
    }
  }

  /** What an add body gives is canonical, unless it writes a peer as `ns/` or `/name`. */
  lemma {:induction false} AddBodyCanonicalIff(g: GatewayKey, name: string, body: map<string, Json>)
    requires FromAddBody(g, name, body).Ok?
    ensures var m := FromAddBody(g, name, body).value;
            m.gateway == g && m.namespace == g.namespace && m.name == name && (Canonical(m) <==> PeerKept(m))
  {
    var source := ObjGet(body, "source").value;
    BodySourceForm(g, source, body, BodyBearer(source, body).value);
  }

  // ---------------------------------------------------------------- agreement

  ghost predicate FromSomeBody(m: Mcp) {
    exists body :: FromAddBody(m.gateway, m.name, body) == Ok(m)
  }

  /** Commands as the callers send them: namespaces are Kubernetes', and an added record was made from an add body
      or is one that the codec keeps. */
  ghost predicate LegalCommand(c: Command) {
    match c
    case Add(m) => SlashFree(m.namespace) && (Canonical(m) || FromSomeBody(m))
    case Update(g, _, _) => SlashFree(g.namespace)
    case Remove(g, _) => SlashFree(g.namespace)
  }

  /** Gateways of the cluster have a namespace and a name. */
  ghost predicate RealGateways(gws: Gateways) {
    forall g | g in gws :: g.namespace != "" && g.name != ""
  }

  /** A body that writes a peer the codec cannot keep names no gateway, so it is refused before it is stored. */
  lemma {:induction false} ResolvedIsCanonical(gws: Gateways, m: Mcp)
    requires RealGateways(gws) && LegalCommand(Add(m)) && ValidMcp(m) && ResolveProxy(gws, m).Ok?
    ensures Canonical(ResolveProxy(gws, m).value)
  {
    if !Canonical(m) {
      var body :| FromAddBody(m.gateway, m.name, body) == Ok(m);
      AddBodyCanonicalIff(m.gateway, m.name, body);
    }
    ResolveKeepsCanonical(gws, m);
  }

  lemma {:induction false} StoreAgrees(items: Items, crs: CrStore, m: Mcp)
    requires Represents(items, crs) && LegalMcp(m)
    ensures Store(crs, m).1 == Ok(m) && Represents(Put(items, m), Store(crs, m).0)
  {
    MirrorPut(items, crs, Id, CrdSpec, m);
    RoundTripIffCanonical(m);
  }

  lemma {:induction false} OwnedAgrees(items: Items, crs: CrStore, g: GatewayKey, name: string)
    requires Represents(items, crs) && SlashFree(g.namespace)
    ensures KubeOwned(crs, g, name) == Lift(Owned(items, g, name))
    ensures Owned(items, g, name).Ok? ==> LegalMcp(Owned(items, g, name).value)
  {
    LookupAgrees(items, crs, g.namespace, name);
  }

  lemma {:induction false} ResolvedAddAgrees(items: Items, crs: CrStore, gws: Gateways, m: Mcp, m': Mcp)
    requires Represents(items, crs) && ValidMcp(m) && m.gateway in gws
    requires ResolveProxy(gws, m) == Ok(m') && LegalMcp(m')
    ensures KubeAdd(crs, gws, m).1 == Lift(DoAdd(items, gws, m).1)
    ensures Represents(DoAdd(items, gws, m).0, KubeAdd(crs, gws, m).0)
  {
    LookupAgrees(items, crs, m'.namespace, m'.name);
    StoreAgrees(items, crs, m');
  }

  lemma {:induction false} AddAgrees(items: Items, crs: CrStore, gws: Gateways, m: Mcp)
    requires Represents(items, crs) && RealGateways(gws) && LegalCommand(Add(m))
    ensures KubeAdd(crs, gws, m).1 == Lift(DoAdd(items, gws, m).1)
    ensures Represents(DoAdd(items, gws, m).0, KubeAdd(crs, gws, m).0)
  {
    if ValidMcp(m) && m.gateway in gws && ResolveProxy(gws, m).Ok? {
      ResolveKeepsValid(gws, m);
      ResolvedIsCanonical(gws, m);
      ResolvedAddAgrees(items, crs, gws, m, ResolveProxy(gws, m).value);
    }
  }

  lemma {:induction false} UpdateAgrees(items: Items, crs: CrStore, gws: Gateways, g: GatewayKey, name: string,
                                        fields: map<string, Json>)
    requires Represents(items, crs) && SlashFree(g.namespace)
    ensures KubeUpdate(crs, gws, g, name, fields).1 == Lift(DoUpdate(items, gws, g, name, fields).1)
    ensures Represents(DoUpdate(items, gws, g, name, fields).0, KubeUpdate(crs, gws, g, name, fields).0)
  {
    OwnedAgrees(items, crs, g, name);
    if g in gws && Owned(items, g, name).Ok? && ApplyFields(Owned(items, g, name).value, fields).Ok? {
      var m := Owned(items, g, name).value;
      var m' := ApplyFields(m, fields).value;
      UpdateKeepsIdentity(m, fields);
      ApplyKeepsCanonical(m, fields);
      if ValidMcp(m') && ResolveProxy(gws, m').Ok? {
        ResolveKeepsValid(gws, m');
        ResolveKeepsCanonical(gws, m');
        StoreAgrees(items, crs, ResolveProxy(gws, m').value);
      }
    }
  }

  lemma {:induction false} RemoveAgrees(items: Items, crs: CrStore, gws: Gateways, g: GatewayKey, name: string)
    requires Represents(items, crs) && SlashFree(g.namespace)
    ensures KubeRemove(crs, gws, g, name).1 == Lift(DoRemove(items, gws, g, name).1)
    ensures Represents(DoRemove(items, gws, g, name).0, KubeRemove(crs, gws, g, name).0)
  {
    OwnedAgrees(items, crs, g, name);
    MirrorDrop(items, crs, Id, CrdSpec, g.namespace, name);
  }

  /** One command is answered alike over both catalogs, and they stay in correspondence. */
  lemma {:induction false} CommandAgrees(items: Items, crs: CrStore, gws: Gateways, c: Command)
    requires Represents(items, crs) && RealGateways(gws) && LegalCommand(c)
    ensures KubeDo(crs, gws, c).1 == Lift(Do(items, gws, c).1)
    ensures Represents(Do(items, gws, c).0, KubeDo(crs, gws, c).0)
  {
    match c {
      case Add(m) => AddAgrees(items, crs, gws, m);
      case Update(g, name, fields) => UpdateAgrees(items, crs, gws, g, name, fields);
      case Remove(g, name) => RemoveAgrees(items, crs, gws, g, name);
    }
  }

  /** For an add that is stored, the codec's canonical form is exactly what the agreement needs. */
  lemma {:induction false} AddAgreesIff(items: Items, crs: CrStore, gws: Gateways, m: Mcp)
    requires Represents(items, crs) && SlashFree(m.namespace) && Do(items, gws, Add(m)).1.Ok?
    ensures KubeDo(crs, gws, Add(m)).1 == Lift(Do(items, gws, Add(m)).1) <==> Canonical(m)
  {
    var m' := ResolveProxy(gws, m).value;
    ResolveKeepsValid(gws, m);
    ResolveKeepsCanonical(gws, m);
    LookupAgrees(items, crs, m'.namespace, m'.name);
    RoundTripIffCanonical(m');
  }

  // ---------------------------------------------------------------- whole runs

  function MemAnswers(items: Items, gws: seq<Gateways>, cs: seq<Command>): seq<KubeOutcome>
    requires |gws| == |cs|
    decreases |cs|
  {
    if cs == [] then []
    else [Lift(Do(items, gws[0], cs[0]).1)] + MemAnswers(Do(items, gws[0], cs[0]).0, gws[1..], cs[1..])
  }

  function KubeAnswers(crs: CrStore, gws: seq<Gateways>, cs: seq<Command>): seq<KubeOutcome>
    requires |gws| == |cs|
    decreases |cs|
  {
    if cs == [] then []
    else [KubeDo(crs, gws[0], cs[0]).1] + KubeAnswers(KubeDo(crs, gws[0], cs[0]).0, gws[1..], cs[1..])
  }

  function KubeAfter(crs: CrStore, gws: seq<Gateways>, cs: seq<Command>): CrStore
    requires |gws| == |cs|
    decreases |cs|
  {
    if cs == [] then crs else KubeAfter(KubeDo(crs, gws[0], cs[0]).0, gws[1..], cs[1..])
  }

  /** Whatever commands arrive, and however the gateways change in between, the control plane over the resources
      answers like the one over the dict, and never finds an object that does not parse. */
  lemma {:induction false} ControlPlanesAgree(items: Items, crs: CrStore, gws: seq<Gateways>, cs: seq<Command>)
    requires |gws| == |cs| && Represents(items, crs)
    requires forall i | 0 <= i < |cs| :: RealGateways(gws[i]) && LegalCommand(cs[i])
    ensures KubeAnswers(crs, gws, cs) == MemAnswers(items, gws, cs)
    ensures Represents(Run(items, gws, cs), KubeAfter(crs, gws, cs))
    decreases |cs|
  {
    if cs != [] {
      CommandAgrees(items, crs, gws[0], cs[0]);
      ControlPlanesAgree(Do(items, gws[0], cs[0]).0, KubeDo(crs, gws[0], cs[0]).0, gws[1..], cs[1..]);
    }
  }

  /** And after the run every gateway's `ListMcps` is one and the same list. */
  lemma {:induction false} ListsAgreeAfterRuns(items: Items, crs: CrStore, gws: seq<Gateways>, cs: seq<Command>,
                                               g: GatewayKey, mem: seq<Mcp>, kube: seq<Mcp>)
    requires |gws| == |cs| && Represents(items, crs)
    requires forall i | 0 <= i < |cs| :: RealGateways(gws[i]) && LegalCommand(cs[i])
    requires IsListing(mem, MemRows(Run(items, gws, cs), g))
    requires ListsCleanly(KubeAfter(crs, gws, cs), g) ==> IsListing(kube, KubeRows(KubeAfter(crs, gws, cs), g))
    ensures ListsCleanly(KubeAfter(crs, gws, cs), g)
    ensures SortBy((m: Mcp) => m.name, mem) == SortBy((m: Mcp) => m.name, kube)
  {
    ControlPlanesAgree(items, crs, gws, cs);
    ListIsClean(Run(items, gws, cs), KubeAfter(crs, gws, cs), g);
    ListMcpsAgrees(Run(items, gws, cs), KubeAfter(crs, gws, cs), g, mem, kube);
  }
}
