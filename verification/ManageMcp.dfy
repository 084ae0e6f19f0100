/** The control-plane use cases over the MCP catalog (`manage_mcp.py`). */
module ManageMcp {
  import opened Common
  import opened McpCodec
  import opened Catalog

  datatype Fault = Invalid | NotFound | Conflict

  type Outcome<T> = Result<T, Fault>

  /** What the use cases read of a gateway: its proxy surface. */
  datatype Proxy = Proxy(enabled: bool, path: string)
  type Gateways = map<GatewayKey, Proxy>
  type Items = map<string, Mcp>

  const DEFAULT_PATH := "/mcp-proxy"

  // ---------------------------------------------------------------- validation

  /** `_validate_mcp` raises nothing. */
  predicate ValidMcp(m: Mcp) {
    && m.gateway.namespace == m.namespace
    && m.name != "" && Strip(m.name) == m.name
    && match m.source
       case RemoteHttp(url, _) => Strip(url) != ""
       case ContainerImage(image, _, _, _) => Strip(image) != ""
       case VmcpProxy(peer, path, port, _) => peer != m.gateway && Strip(path) != "" && 1 <= port <= 65535
  }

  /** `_resolve_vmcp_proxy`: the peer must offer a proxy; its path is inherited over the default. */
  function ResolveProxy(gws: Gateways, m: Mcp): Outcome<Mcp> {
    if !m.source.VmcpProxy? then Ok(m)
    else if m.source.peer !in gws then Err(NotFound)
    else
      var proxy := gws[m.source.peer];
      if !proxy.enabled then Err(Invalid)
      else if (m.source.path == "" || m.source.path == DEFAULT_PATH) && proxy.path != ""
      then Ok(m.(source := m.source.(path := proxy.path)))
      else Ok(m)
  }

  // ---------------------------------------------------------------- sparse updates

  const FIELDS := {"enabled", "description", "forwardIdentity", "url", "image", "bearerSecretRef", "path"}

  /** A stripped, non-empty string field. */
  function TextField(j: Json): Outcome<string> {
    match PyStr(j)
    case Err(_) => Err(Invalid)
    case Ok(s) => if Strip(s) == "" then Err(Invalid) else Ok(Strip(s))
  }

  function SetUrl(source: Source, fields: map<string, Json>): Outcome<Source> {
    if "url" !in fields then Ok(source)
    else if !source.RemoteHttp? then Err(Invalid)
    else match TextField(fields["url"])
      case Ok(url) => Ok(source.(url := url))
      case Err(e) => Err(e)
  }

  function SetImage(source: Source, fields: map<string, Json>): Outcome<Source> {
    if "image" !in fields then Ok(source)
    else if !source.ContainerImage? then Err(Invalid)
    else match TextField(fields["image"])
      case Ok(image) => Ok(source.(image := image))
      case Err(e) => Err(e)
  }

  /** `None` clears the reference; an object needs a name, and never makes a writable reference. */
  function BearerField(j: Json): Outcome<Option<SecretRef>> {
    match j
    case Null => Ok(None)
    case Obj(o) =>
      (match (StrKey(o, "name"), StrGet(o, "key", "token"))
       case (Ok(name), Ok(key)) => Ok(Some(SecretRef(name, key, false)))
       case _ => Err(Invalid))
    case _ => Err(Invalid)
  }

  function SetBearer(source: Source, fields: map<string, Json>): Outcome<Source> {
    if "bearerSecretRef" !in fields then Ok(source)
    else match (source, BearerField(fields["bearerSecretRef"]))
      case (RemoteHttp(url, _), Ok(b)) => Ok(RemoteHttp(url, b))
      case (VmcpProxy(peer, path, port, _), Ok(b)) => Ok(VmcpProxy(peer, path, port, b))
      case _ => Err(Invalid)
  }

  function SetPath(source: Source, fields: map<string, Json>): Outcome<Source> {
    if "path" !in fields then Ok(source)
    else if !source.VmcpProxy? then Err(Invalid)
    else match TextField(fields["path"])
      case Ok(path) => Ok(source.(path := path))
      case Err(e) => Err(e)
  }

  function SetSource(source: Source, fields: map<string, Json>): Outcome<Source> {
    match SetUrl(source, fields)
    case Err(e) => Err(e)
    case Ok(s1) =>
      match SetImage(s1, fields)
      case Err(e) => Err(e)
      case Ok(s2) =>
        match SetBearer(s2, fields)
        case Err(e) => Err(e)
        case Ok(s3) => SetPath(s3, fields)
  }

  function SetDescription(d: Option<string>, fields: map<string, Json>): Outcome<Option<string>> {
    if "description" !in fields then Ok(d)
    else match OptGet(fields, "description")
      case Ok(v) => Ok(v)
      case Err(_) => Err(Invalid)
  }

  function ApplyFields(m: Mcp, fields: map<string, Json>): Outcome<Mcp> {
    if fields == map[] || !(fields.Keys <= FIELDS) then Err(Invalid)
    else match (SetDescription(m.description, fields), SetSource(m.source, fields))
      case (Ok(desc), Ok(source)) =>
        Ok(m.(enabled := BoolGet(fields, "enabled", m.enabled), description := desc, source := source,
              forwardIdentity := BoolGet(fields, "forwardIdentity", m.forwardIdentity)))
      case _ => Err(Invalid)
  }

  /** `apply_mcp_fields`: rebinds the locals field by field and rejects unknown names last. */
  method ApplyMcpFields(m: Mcp, fields: map<string, Json>) returns (r: Outcome<Mcp>)
    ensures r == ApplyFields(m, fields)
  {
    if fields == map[] {
      return Err(Invalid);
    }
    var enabled, description, forwardIdentity, source := m.enabled, m.description, m.forwardIdentity, m.source;
    if "enabled" in fields {
      enabled := Truthy(fields["enabled"]);
    }
    if "description" in fields {
      var d := OptGet(fields, "description");
      if d.Err? {
        return Err(Invalid);
      }
      description := d.value;
    }
    if "forwardIdentity" in fields {
      forwardIdentity := Truthy(fields["forwardIdentity"]);
    }
    var step := SetUrl(source, fields);
    if step.Err? {
      return Err(Invalid);
    }
    source := step.value;
    step := SetImage(source, fields);
    if step.Err? {
      return Err(Invalid);
    }
    source := step.value;
    step := SetBearer(source, fields);
    if step.Err? {
      return Err(Invalid);
    }
    source := step.value;
    step := SetPath(source, fields);
    if step.Err? {
      return Err(Invalid);
    }
    source := step.value;
    if !(fields.Keys <= FIELDS) {
      return Err(Invalid);
    }
    r := Ok(m.(enabled := enabled, description := description, forwardIdentity := forwardIdentity, source := source));
  }

  // ---------------------------------------------------------------- commands

  datatype Command =
    | Add(m: Mcp) | Update(g: GatewayKey, name: string, fields: map<string, Json>) | Remove(g: GatewayKey, name: string)

  /** The record a command on an existing MCP works on. */
  function Owned(items: Items, g: GatewayKey, name: string): Outcome<Mcp> {
    var k := CatKey(g.namespace, name);
    if k in items && items[k].gateway == g then Ok(items[k]) else Err(NotFound)
  }

  function Put(items: Items, m: Mcp): Items {
    items[CatKey(m.namespace, m.name) := m]
  }

  function DoAdd(items: Items, gws: Gateways, m: Mcp): (Items, Outcome<Mcp>) {
    if !ValidMcp(m) then (items, Err(Invalid))
    else if m.gateway !in gws then (items, Err(NotFound))
    else match ResolveProxy(gws, m)
      case Err(e) => (items, Err(e))
      case Ok(m') =>
        if CatKey(m'.namespace, m'.name) in items then (items, Err(Conflict))
        else (Put(items, m'), Ok(m'))
  }

  function DoUpdate(items: Items, gws: Gateways, g: GatewayKey, name: string, fields: map<string, Json>)
    : (Items, Outcome<Mcp>)
  {
    if g !in gws then (items, Err(NotFound))
    else match Owned(items, g, name)
      case Err(e) => (items, Err(e))
      case Ok(m) =>
        match ApplyFields(m, fields)
        case Err(e) => (items, Err(e))
        case Ok(m') =>
          if !ValidMcp(m') then (items, Err(Invalid))
          else match ResolveProxy(gws, m')
            case Err(e) => (items, Err(e))
            case Ok(stored) => (Put(items, stored), Ok(stored))
  }

  function DoRemove(items: Items, gws: Gateways, g: GatewayKey, name: string): (Items, Outcome<Mcp>) {
    if g !in gws then (items, Err(NotFound))
    else match Owned(items, g, name)
      case Err(e) => (items, Err(e))
      case Ok(m) => (items - {CatKey(g.namespace, name)}, Ok(m))
  }

  function Do(items: Items, gws: Gateways, c: Command): (Items, Outcome<Mcp>) {
    match c
    case Add(m) => DoAdd(items, gws, m)
    case Update(g, name, fields) => DoUpdate(items, gws, g, name, fields)
    case Remove(g, name) => DoRemove(items, gws, g, name)
  }

  /** `AddMcp.execute`. */
  method AddMcp(catalog: InMemoryMcpCatalog, gws: Gateways, m: Mcp) returns (r: Outcome<Mcp>)
    modifies catalog
    ensures (catalog.items, r) == Do(old(catalog.items), gws, Add(m))
  {
    if !ValidMcp(m) {
      return Err(Invalid);
    }
    if m.gateway !in gws {
      return Err(NotFound);
    }
    var resolved := ResolveProxy(gws, m);
    if resolved.Err? {
      return resolved;
    }
    var existing := catalog.Get(resolved.value.namespace, resolved.value.name);
    if existing.Some? {
      return Err(Conflict);
    }
    var stored := catalog.Upsert(resolved.value);
    r := Ok(stored);
  }

  /** `UpdateMcp.execute`. */
  method UpdateMcp(catalog: InMemoryMcpCatalog, gws: Gateways, g: GatewayKey, name: string, fields: map<string, Json>)
    returns (r: Outcome<Mcp>)
    modifies catalog
    ensures (catalog.items, r) == Do(old(catalog.items), gws, Update(g, name, fields))
  {
    if g !in gws {
      return Err(NotFound);
    }
    var current := catalog.Get(g.namespace, name);
    if current.None? || current.value.gateway != g {
      return Err(NotFound);
    }
    r := ApplyMcpFields(current.value, fields);
    if r.Err? {
      return;
    }
    if !ValidMcp(r.value) {
      return Err(Invalid);
    }
    r := ResolveProxy(gws, r.value);
    if r.Ok? {
      var stored := catalog.Upsert(r.value);
      r := Ok(stored);
    }
  }

  /** `RemoveMcp.execute`. */
  method RemoveMcp(catalog: InMemoryMcpCatalog, gws: Gateways, g: GatewayKey, name: string) returns (r: Outcome<Mcp>)
    modifies catalog
    ensures (catalog.items, r) == Do(old(catalog.items), gws, Remove(g, name))
  {
    if g !in gws {
      return Err(NotFound);
    }
    var current := catalog.Get(g.namespace, name);
    if current.None? || current.value.gateway != g {
      return Err(NotFound);
    }
    var gone := catalog.Delete(g.namespace, name);
    if !gone {
      return Err(NotFound);
    }
    r := Ok(current.value);
  }

  /** `ListMcps.execute`: the gateway's records in name order. */
  method ListMcps(catalog: InMemoryMcpCatalog, gws: Gateways, g: GatewayKey) returns (r: Outcome<seq<Mcp>>)
    requires catalog.Keyed()
    ensures r.Ok? <==> g in gws
    ensures r.Ok? ==> SortedBy((m: Mcp) => m.name, r.value)
    ensures r.Ok? ==> multiset(r.value) == multiset(MemRows(catalog.items, g))
  {
    if g !in gws {
      return Err(NotFound);
    }
    var rows := catalog.ListForGateway(g);
    ListingMultiset(rows, MemRows(catalog.items, g));
    SortByFacts((m: Mcp) => m.name, rows);
    r := Ok(SortBy((m: Mcp) => m.name, rows));
  }

  // ---------------------------------------------------------------- the invariant

  /** Every stored MCP sits under its own key, next to its gateway, and passes validation. */
  ghost predicate Sound(items: Items) {
    forall k | k in items :: SoundAt(k, items[k])
  }

  predicate SoundAt(k: string, m: Mcp) {
    k == CatKey(m.namespace, m.name) && ValidMcp(m)
  }

  /** The only way past validation: an inherited peer path that is blank without being empty. */
  predicate InheritsBlank(gws: Gateways, m: Mcp) {
    && m.source.VmcpProxy? && m.source.peer in gws && gws[m.source.peer].enabled
    && (m.source.path == "" || m.source.path == DEFAULT_PATH)
    && gws[m.source.peer].path != "" && Strip(gws[m.source.peer].path) == ""
  }

  lemma {:induction false} PathDecides(m: Mcp, path: string)
    requires ValidMcp(m) && m.source.VmcpProxy?
    ensures ValidMcp(m.(source := m.source.(path := path))) <==> Strip(path) != ""
  {
  }

  /** Resolution happens after validation: the resolved record is valid exactly when it did not
      inherit a blank path. */
  lemma {:induction false} ResolveKeepsValid(gws: Gateways, m: Mcp)
    requires ValidMcp(m) && ResolveProxy(gws, m).Ok?
    ensures var m' := ResolveProxy(gws, m).value;
            && m'.namespace == m.namespace && m'.name == m.name && m'.gateway == m.gateway
            && (ValidMcp(m') <==> !InheritsBlank(gws, m))
  {
    if m.source.VmcpProxy? {
      PathDecides(m, gws[m.source.peer].path);
    }
  }

  /** `AddMcp` stores a record that `_validate_mcp` would reject exactly when it inherits a blank path. */
  lemma {:induction false} AddStoresInvalidIff(items: Items, gws: Gateways, m: Mcp)
    requires Do(items, gws, Add(m)).1.Ok?
    ensures !ValidMcp(Do(items, gws, Add(m)).1.value) <==> InheritsBlank(gws, m)
  {
    ResolveKeepsValid(gws, m);
  }

  /** Such records exist for every name: it takes a peer whose proxy path is one blank. */
  lemma {:induction false} BlankPathWitness(g: GatewayKey, p: GatewayKey, name: string) returns (gws: Gateways, m: Mcp)
    requires p != g && name != "" && Strip(name) == name
    ensures m.name == name && m.gateway == g && g in gws
    ensures ValidMcp(m) && ResolveProxy(gws, m).Ok? && InheritsBlank(gws, m)
  {
    gws := map[g := Proxy(false, ""), p := Proxy(true, " ")];
    m := Mcp(g.namespace, name, g, true, None, VmcpProxy(p, DEFAULT_PATH, 8080, None), [], [], [], false);
    DefaultPathStays();
    StripBlank(" ");
    assert Blank(" ");
  }

  lemma {:induction false} DefaultPathStays()
    ensures Strip(DEFAULT_PATH) == DEFAULT_PATH && Strip(DEFAULT_PATH) != ""
  {
    assert DEFAULT_PATH[0] == '/' && DEFAULT_PATH[|DEFAULT_PATH| - 1] == 'y';
    StripIdentity(DEFAULT_PATH);
  }

  ghost predicate NoBlankPaths(gws: Gateways) {
    forall g | g in gws :: gws[g].path == "" || Strip(gws[g].path) != ""
  }

  /** One kind of source, and for a proxy the same peer and port. */
  predicate SameKind(a: Source, b: Source) {
    && (a.RemoteHttp? <==> b.RemoteHttp?)
    && (a.ContainerImage? <==> b.ContainerImage?)
    && (a.VmcpProxy? ==> b.VmcpProxy? && a.peer == b.peer && a.port == b.port)
  }

  lemma {:induction false} SetterKinds(s: Source, fields: map<string, Json>)
    ensures SetUrl(s, fields).Ok? ==> SameKind(SetUrl(s, fields).value, s)
    ensures SetImage(s, fields).Ok? ==> SameKind(SetImage(s, fields).value, s)
    ensures SetBearer(s, fields).Ok? ==> SameKind(SetBearer(s, fields).value, s)
    ensures SetPath(s, fields).Ok? ==> SameKind(SetPath(s, fields).value, s)
  {
  }

  lemma {:induction false} SetSourceKind(s: Source, fields: map<string, Json>)
    requires SetSource(s, fields).Ok?
    ensures SameKind(SetSource(s, fields).value, s)
  {
    SetterKinds(s, fields);
    var s1 := SetUrl(s, fields).value;
    SetterKinds(s1, fields);
    var s2 := SetImage(s1, fields).value;
    SetterKinds(s2, fields);
    SetterKinds(SetBearer(s2, fields).value, fields);
  }

  /** What an update can never change. */
  predicate SameIdentity(a: Mcp, b: Mcp) {
    && a.namespace == b.namespace && a.name == b.name && a.gateway == b.gateway
    && a.toolOverrides == b.toolOverrides && a.skillRefs == b.skillRefs && a.webExposures == b.webExposures
    && SameKind(a.source, b.source)
  }

  lemma {:induction false} UpdateKeepsIdentity(m: Mcp, fields: map<string, Json>)
    requires ApplyFields(m, fields).Ok?
    ensures SameIdentity(ApplyFields(m, fields).value, m)
  {
    SetSourceKind(m.source, fields);
  }

  function GatewayOf(c: Command): GatewayKey {
    match c
    case Add(m) => m.gateway
    case Update(g, _, _) => g
    case Remove(g, _) => g
  }

  /** `items'` differs from `items` only in records of gateway `g`. */
  ghost predicate OnlyGateway(items: Items, items': Items, g: GatewayKey) {
    && (forall k | k in items && items[k].gateway != g :: k in items' && items'[k] == items[k])
    && (forall k | k in items' && items'[k].gateway != g :: k in items)
  }

  lemma {:induction false} NoBlank(gws: Gateways, m: Mcp)
    requires NoBlankPaths(gws)
    ensures !InheritsBlank(gws, m)
  {
  }

  lemma {:induction false} PutKeepsSound(items: Items, m: Mcp)
    requires Sound(items) && ValidMcp(m)
    requires CatKey(m.namespace, m.name) in items ==> items[CatKey(m.namespace, m.name)].gateway == m.gateway
    ensures Sound(Put(items, m)) && OnlyGateway(items, Put(items, m), m.gateway)
  {
    PutRaw(items, CatKey(m.namespace, m.name), m);
    PutOnly(items, CatKey(m.namespace, m.name), m);
  }

  lemma {:induction false} PutRaw(items: Items, key: string, m: Mcp)
    requires Sound(items) && SoundAt(key, m)
    ensures Sound(items[key := m])
  {
    var r := items[key := m];
    forall k | k in r ensures SoundAt(k, r[k]) {
      if k != key { assert SoundAt(k, items[k]); }
    }
  }

  lemma {:induction false} PutOnly(items: Items, key: string, m: Mcp)
    requires key in items ==> items[key].gateway == m.gateway
    ensures OnlyGateway(items, items[key := m], m.gateway)
  {
  }

  lemma {:induction false} AddKeepsSound(items: Items, gws: Gateways, m: Mcp)
    requires Sound(items) && NoBlankPaths(gws)
    ensures var (items', r) := DoAdd(items, gws, m);
            Sound(items') && OnlyGateway(items, items', m.gateway) && (r.Err? ==> items' == items)
  {
    var (items', r) := DoAdd(items, gws, m);
    if r.Ok? {
      ResolveKeepsValid(gws, m);
      NoBlank(gws, m);
      PutKeepsSound(items, r.value);
    }
  }

  /** What a successful update puts back: a valid record, in the place of the one it found. */
  lemma {:induction false} UpdateStores(items: Items, gws: Gateways, g: GatewayKey, name: string,
                                        fields: map<string, Json>) returns (stored: Mcp)
    requires Sound(items) && NoBlankPaths(gws) && DoUpdate(items, gws, g, name, fields).1.Ok?
    ensures DoUpdate(items, gws, g, name, fields) == (Put(items, stored), Ok(stored))
    ensures ValidMcp(stored) && stored.gateway == g
    ensures var k := CatKey(stored.namespace, stored.name); k in items && items[k].gateway == g
  {
    UpdateShape(items, gws, g, name, fields);
    NoBlank(gws, ApplyFields(Owned(items, g, name).value, fields).value);
    stored := DoUpdate(items, gws, g, name, fields).1.value;
  }

  lemma {:induction false} UpdateFails(items: Items, gws: Gateways, g: GatewayKey, name: string,
                                       fields: map<string, Json>)
    requires DoUpdate(items, gws, g, name, fields).1.Err?
    ensures DoUpdate(items, gws, g, name, fields).0 == items
  {
  }

  lemma {:induction false} UpdateKeepsSound(items: Items, gws: Gateways, g: GatewayKey, name: string,
                                            fields: map<string, Json>)
    requires Sound(items) && NoBlankPaths(gws)
    ensures Sound(DoUpdate(items, gws, g, name, fields).0)
    ensures OnlyGateway(items, DoUpdate(items, gws, g, name, fields).0, g)
    ensures DoUpdate(items, gws, g, name, fields).1.Err? ==> DoUpdate(items, gws, g, name, fields).0 == items
  {
    if DoUpdate(items, gws, g, name, fields).1.Ok? {
      var stored := UpdateStores(items, gws, g, name, fields);
      PutKeepsSound(items, stored);
    } else {
      UpdateFails(items, gws, g, name, fields);
    }
  }

  /** The anatomy of a successful update. */
  lemma {:induction false} UpdateShape(items: Items, gws: Gateways, g: GatewayKey, name: string,
                                       fields: map<string, Json>)
    requires Sound(items) && DoUpdate(items, gws, g, name, fields).1.Ok?
    ensures var (items', r) := DoUpdate(items, gws, g, name, fields);
            && Owned(items, g, name).Ok?
            && var m := Owned(items, g, name).value;
            && CatKey(g.namespace, name) in items && items[CatKey(g.namespace, name)] == m
            && CatKey(m.namespace, m.name) == CatKey(g.namespace, name) && m.gateway == g
            && ApplyFields(m, fields).Ok?
            && var m' := ApplyFields(m, fields).value;
            && ValidMcp(m') && ResolveProxy(gws, m') == r && items' == Put(items, r.value)
            && m'.namespace == m.namespace && m'.name == m.name && m'.gateway == m.gateway
            && r.value.namespace == m.namespace && r.value.name == m.name && r.value.gateway == g
            && (ValidMcp(r.value) <==> !InheritsBlank(gws, m'))
  {
    var m := Owned(items, g, name).value;
    UpdateKeepsIdentity(m, fields);
    ResolveKeepsValid(gws, ApplyFields(m, fields).value);
  }

  /** One command: the catalog stays sound, records of other gateways are neither touched nor made,
      and a command that fails changes nothing. */
  lemma {:induction false} CommandKeepsSound(items: Items, gws: Gateways, c: Command)
    requires Sound(items) && NoBlankPaths(gws)
    ensures var items' := Do(items, gws, c).0;
            && Sound(items') && OnlyGateway(items, items', GatewayOf(c))
            && (Do(items, gws, c).1.Err? ==> items' == items)
  {
    match c {
      case Add(m) => AddKeepsSound(items, gws, m);
      case Update(g, name, fields) => UpdateKeepsSound(items, gws, g, name, fields);
      case Remove(g, name) =>
    }
  }

  /** A successful update changes one record and keeps its name, gateway, source kind and peer. */
  lemma {:induction false} UpdateChangesOneRecord(items: Items, gws: Gateways, g: GatewayKey, name: string,
                                                  fields: map<string, Json>)
    requires Sound(items) && Do(items, gws, Update(g, name, fields)).1.Ok?
    ensures var (items', r) := Do(items, gws, Update(g, name, fields));
            var k := CatKey(g.namespace, name);
            k in items && items' == items[k := r.value] && SameIdentity(r.value, items[k]) && r.value.gateway == g
  {
    UpdateShape(items, gws, g, name, fields);
    var m := Owned(items, g, name).value;
    UpdateKeepsIdentity(m, fields);
    ResolveTwice(gws, ApplyFields(m, fields).value);
  }

  /** Removing what was just added gives back the catalog as it was. */
  lemma {:induction false} RemoveUndoesAdd(items: Items, gws: Gateways, m: Mcp)
    requires Do(items, gws, Add(m)).1.Ok?
    ensures var (items', r) := Do(items, gws, Add(m));
            Do(items', gws, Remove(m.gateway, m.name)) == (items, Ok(r.value))
  {
    AddShape(items, gws, m);
    var (items', r) := Do(items, gws, Add(m));
    RemoveShape(items', gws, m.gateway, m.name, r.value);
    PutThenDrop(items, CatKey(m.gateway.namespace, m.name), r.value);
  }

  lemma {:induction false} AddShape(items: Items, gws: Gateways, m: Mcp)
    requires Do(items, gws, Add(m)).1.Ok?
    ensures var (items', r) := Do(items, gws, Add(m));
            var k := CatKey(m.gateway.namespace, m.name);
            k !in items && items' == items[k := r.value] && m.gateway in gws && r.value.gateway == m.gateway
  {
    ResolveKeepsValid(gws, m);
  }

  lemma {:induction false} RemoveShape(items: Items, gws: Gateways, g: GatewayKey, name: string, m: Mcp)
    requires g in gws && CatKey(g.namespace, name) in items
    requires items[CatKey(g.namespace, name)] == m && m.gateway == g
    ensures Do(items, gws, Remove(g, name)) == (items - {CatKey(g.namespace, name)}, Ok(m))
  {
  }

  lemma {:induction false} PutThenDrop(items: Items, k: string, m: Mcp)
    requires k !in items
    ensures items[k := m] - {k} == items
  {
  }

  /** Fields a remote source takes. */
  predicate RemoteFieldsOk(fields: map<string, Json>) {
    && "image" !in fields && "path" !in fields
    && ("url" in fields ==> TextField(fields["url"]).Ok?)
    && ("bearerSecretRef" in fields ==> BearerField(fields["bearerSecretRef"]).Ok?)
  }

  lemma {:induction false} RemoteForm(s: Source, fields: map<string, Json>)
    requires s.RemoteHttp?
    ensures SetSource(s, fields).Ok? <==> RemoteFieldsOk(fields)
    ensures RemoteFieldsOk(fields) ==>
              SetSource(s, fields) == Ok(RemoteHttp(
                if "url" in fields then TextField(fields["url"]).value else s.url,
                if "bearerSecretRef" in fields then BearerField(fields["bearerSecretRef"]).value else s.bearer))
  {
  }

  lemma {:induction false} RemoteTwice(s: Source, fields: map<string, Json>)
    requires s.RemoteHttp? && SetSource(s, fields).Ok?
    ensures SetSource(SetSource(s, fields).value, fields) == SetSource(s, fields)
    ensures "path" !in fields
  {
    RemoteForm(s, fields);
    RemoteForm(SetSource(s, fields).value, fields);
  }

  lemma {:induction false} ContainerTwice(s: Source, fields: map<string, Json>)
    requires s.ContainerImage? && SetSource(s, fields).Ok?
    ensures SetSource(SetSource(s, fields).value, fields) == SetSource(s, fields)
    ensures "path" !in fields
  {
  }

  lemma {:induction false} ProxyTwice(s: Source, fields: map<string, Json>, p: string)
    requires s.VmcpProxy? && SetSource(s, fields).Ok?
    ensures var s' := SetSource(s, fields).value;
            s'.VmcpProxy? && SetSource(s'.(path := p), fields) == Ok(if "path" in fields then s' else s'.(path := p))
  {
  }

  /** `stored` is `m` up to an inherited proxy path. */
  ghost predicate UpToPath(m: Mcp, stored: Mcp) {
    stored == m || (m.source.VmcpProxy? && stored.source.VmcpProxy? &&
        stored == m.(source := m.source.(path := stored.source.path)))
  }

  lemma {:induction false} SourceTwice(s: Source, fields: map<string, Json>, t: Source)
    requires SetSource(s, fields).Ok?
    requires var s' := SetSource(s, fields).value;
             t == s' || (s'.VmcpProxy? && t.VmcpProxy? && t == s'.(path := t.path))
    ensures SetSource(t, fields) == Ok(if "path" in fields then SetSource(s, fields).value else t)
  {
    var s' := SetSource(s, fields).value;
    SetSourceKind(s, fields);
    if s.RemoteHttp? {
      RemoteTwice(s, fields);
    } else if s.ContainerImage? {
      ContainerTwice(s, fields);
    } else {
      ProxyTwice(s, fields, t.path);
      assert s'.(path := t.path) == t;
    }
  }

  lemma {:induction false} ApplyTwice(m: Mcp, fields: map<string, Json>, stored: Mcp)
    requires ApplyFields(m, fields).Ok? && UpToPath(ApplyFields(m, fields).value, stored)
    ensures ApplyFields(stored, fields)
         == Ok(if "path" in fields then ApplyFields(m, fields).value else stored)
  {
    SourceTwice(m.source, fields, stored.source);
  }

  lemma {:induction false} ResolveTwice(gws: Gateways, m: Mcp)
    requires ResolveProxy(gws, m).Ok?
    ensures ResolveProxy(gws, ResolveProxy(gws, m).value) == ResolveProxy(gws, m)
    ensures var r := ResolveProxy(gws, m).value;
            r == m || (m.source.VmcpProxy? && r == m.(source := m.source.(path := r.source.path)))
  {
  }

  /** An update whose steps are known. */
  lemma {:induction false} UpdateBy(items: Items, gws: Gateways, g: GatewayKey, name: string,
                                    fields: map<string, Json>, m: Mcp, m': Mcp, stored: Mcp)
    requires g in gws && Owned(items, g, name) == Ok(m) && ApplyFields(m, fields) == Ok(m')
    requires ValidMcp(m') && ResolveProxy(gws, m') == Ok(stored)
    ensures DoUpdate(items, gws, g, name, fields) == (Put(items, stored), Ok(stored))
  {
  }

  /** The record an update stored is found again, and storing it again changes nothing. */
  lemma {:induction false} StoredIsOwned(items: Items, g: GatewayKey, name: string, stored: Mcp)
    requires CatKey(stored.namespace, stored.name) == CatKey(g.namespace, name) && stored.gateway == g
    ensures Owned(Put(items, stored), g, name) == Ok(stored)
    ensures Put(Put(items, stored), stored) == Put(items, stored)
  {
  }

  /** Sending the same update twice is the same as sending it once. */
  lemma {:induction false} UpdateIsIdempotent(items: Items, gws: Gateways, g: GatewayKey, name: string,
                                              fields: map<string, Json>)
    requires Sound(items) && NoBlankPaths(gws)
    requires Do(items, gws, Update(g, name, fields)).1.Ok?
    ensures var (items', r) := Do(items, gws, Update(g, name, fields));
            Do(items', gws, Update(g, name, fields)) == (items', r)
  {
    UpdateShape(items, gws, g, name, fields);
    var m := Owned(items, g, name).value;
    var m' := ApplyFields(m, fields).value;
    var stored := ResolveProxy(gws, m').value;
    NoBlank(gws, m');
    ResolveTwice(gws, m');
    ApplyTwice(m, fields, stored);
    StoredIsOwned(items, g, name, stored);
    UpdateBy(Put(items, stored), gws, g, name, fields, stored, if "path" in fields then m' else stored, stored);
  }

  /** All runs: whatever commands arrive, and however the gateways change in between. */
  function Run(items: Items, gws: seq<Gateways>, cs: seq<Command>): Items
    requires |gws| == |cs|
    decreases |cs|
  {
    if cs == [] then items else Run(Do(items, gws[0], cs[0]).0, gws[1..], cs[1..])
  }

  lemma {:induction false} RunsStaySound(items: Items, gws: seq<Gateways>, cs: seq<Command>)
    requires |gws| == |cs| && Sound(items)
    requires forall i | 0 <= i < |gws| :: NoBlankPaths(gws[i])
    ensures Sound(Run(items, gws, cs))
    decreases |cs|
  {
    if cs != [] {
      CommandKeepsSound(items, gws[0], cs[0]);
      RunsStaySound(Do(items, gws[0], cs[0]).0, gws[1..], cs[1..]);
    }
  }

  /** Commands for other gateways leave a gateway's record alone over whole runs. */
  lemma {:induction false} OtherGatewaysUntouched(items: Items, gws: seq<Gateways>, cs: seq<Command>, k: string)
    requires |gws| == |cs| && Sound(items) && k in items
    requires forall i | 0 <= i < |gws| :: NoBlankPaths(gws[i])
    requires forall i | 0 <= i < |cs| :: GatewayOf(cs[i]) != items[k].gateway
    ensures k in Run(items, gws, cs) && Run(items, gws, cs)[k] == items[k]
    decreases |cs|
  {
    if cs != [] {
      CommandKeepsSound(items, gws[0], cs[0]);
      OtherGatewaysUntouched(Do(items, gws[0], cs[0]).0, gws[1..], cs[1..], k);
    }
  }
}
