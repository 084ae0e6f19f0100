/** What the commands of `manage_mcp.py` ask for and do, field by field, in terms of what the caller sends and what
    was stored before. */
module UpdateEffects {
  import opened Common
  import opened McpCodec
  import opened Catalog
  import opened ManageMcp
  import opened PyValues

  /** A plain value that is not blank text. */
  predicate NonBlank(j: Json) {
    Plain(j) && (j.Str? ==> Strip(j.s) != "")
  }

  lemma {:induction false} PlainStrips(j: Json)
    requires j.Null? || j.Bool?
    ensures PyStr(j).Ok? && PyStr(j).value != "" && Strip(PyStr(j).value) == PyStr(j).value
  {
    StripIdentity(PyStr(j).value);
  }

  lemma {:induction false} TextIs(j: Json)
    ensures PyStr(j).Ok? <==> Plain(j)
    ensures PyStr(j).Ok? ==> Says(j, PyStr(j).value)
    ensures TextField(j).Ok? <==> NonBlank(j)
    ensures TextField(j).Ok? ==> Plain(j) && TextField(j).value == Strip(PyStr(j).value)
  {
    if j.Null? || j.Bool? { PlainStrips(j); }
  }

  // ---------------------------------------------------------------- what an update asks for

  predicate BearerFits(j: Json) {
    || j == Null
    || (j.Obj? && "name" in j.fields && Plain(j.fields["name"]) && ("key" in j.fields ==> Plain(j.fields["key"])))
  }

  /** The fields suit the record: known names, and values of the right kind for its source. */
  predicate FieldsFit(m: Mcp, fields: map<string, Json>) {
    && fields != map[]
    && (forall f | f in fields ::
          f in ["enabled", "description", "forwardIdentity", "url", "image", "bearerSecretRef", "path"])
    && ("description" in fields ==> fields["description"].Null? || fields["description"].Str?)
    && ("url" in fields ==> m.source.RemoteHttp? && NonBlank(fields["url"]))
    && ("image" in fields ==> m.source.ContainerImage? && NonBlank(fields["image"]))
    && ("bearerSecretRef" in fields ==> !m.source.ContainerImage? && BearerFits(fields["bearerSecretRef"]))
    && ("path" in fields ==> m.source.VmcpProxy? && NonBlank(fields["path"]))
  }

  // ---------------------------------------------------------------- what it does

  /** A switch: the given value's truth, or as before. */
  predicate Switched(fields: map<string, Json>, k: string, before: bool, after: bool) {
    after <==> if k in fields then !Falsy(fields[k]) else before
  }

  /** A text: the given one without the blanks around it, or as before. */
  ghost predicate Rewritten(fields: map<string, Json>, k: string, before: string, after: string) {
    if k in fields then exists s :: Says(fields[k], s) && after == Strip(s) && after != "" else after == before
  }

  ghost predicate Described(fields: map<string, Json>, before: Option<string>, after: Option<string>) {
    if "description" in fields then
      if fields["description"] == Null then after == None
      else fields["description"].Str? && after == Some(fields["description"].s)
    else after == before
  }

  /** The bearer reference: cleared by null, named by an object, read-only. */
  ghost predicate BearerSet(fields: map<string, Json>, before: Option<SecretRef>, after: Option<SecretRef>) {
    if "bearerSecretRef" !in fields then after == before
    else if fields["bearerSecretRef"] == Null then after == None
    else
      && fields["bearerSecretRef"].Obj?
      && var o := fields["bearerSecretRef"].fields;
         && after.Some? && !after.value.writable
         && "name" in o && Says(o["name"], after.value.name)
         && if "key" in o then Says(o["key"], after.value.key) else after.value.key == "token"
  }

  /** The source: same kind, its own texts rewritten, everything else as it was. */
  ghost predicate SourceUpdated(fields: map<string, Json>, before: Source, after: Source) {
    match before
    case RemoteHttp(url, bearer) =>
      after.RemoteHttp? && Rewritten(fields, "url", url, after.url) && BearerSet(fields, bearer, after.bearer)
    case ContainerImage(image, ports, endpoint, env) =>
      after.ContainerImage? && Rewritten(fields, "image", image, after.image)
      && after.ports == ports && after.endpoint == endpoint && after.env == env
    case VmcpProxy(peer, path, port, bearer) =>
      after.VmcpProxy? && Rewritten(fields, "path", path, after.path) && BearerSet(fields, bearer, after.bearer)
      && after.peer == peer && after.port == port
  }

  ghost predicate Updated(fields: map<string, Json>, m: Mcp, r: Mcp) {
    && r.namespace == m.namespace && r.name == m.name && r.gateway == m.gateway
    && Switched(fields, "enabled", m.enabled, r.enabled)
    && Switched(fields, "forwardIdentity", m.forwardIdentity, r.forwardIdentity)
    && Described(fields, m.description, r.description)
    && SourceUpdated(fields, m.source, r.source)
    && r.toolOverrides == m.toolOverrides && r.skillRefs == m.skillRefs && r.webExposures == m.webExposures
  }

  // ---------------------------------------------------------------- setters

  lemma {:induction false} UrlEffect(s: Source, fields: map<string, Json>)
    ensures SetUrl(s, fields).Ok? <==> "url" in fields ==> s.RemoteHttp? && NonBlank(fields["url"])
    ensures var r := SetUrl(s, fields);
            r.Ok? ==> if s.RemoteHttp? then r.value.RemoteHttp? && Rewritten(fields, "url", s.url, r.value.url)
                                            && r.value.bearer == s.bearer
                      else r.value == s
  {
    if "url" in fields { TextIs(fields["url"]); }
  }

  lemma {:induction false} ImageEffect(s: Source, fields: map<string, Json>)
    ensures SetImage(s, fields).Ok? <==> "image" in fields ==> s.ContainerImage? && NonBlank(fields["image"])
    ensures var r := SetImage(s, fields);
            r.Ok? ==> if s.ContainerImage? then
                        && r.value.ContainerImage? && Rewritten(fields, "image", s.image, r.value.image)
                        && r.value.ports == s.ports && r.value.endpoint == s.endpoint && r.value.env == s.env
                      else r.value == s
  {
    if "image" in fields { TextIs(fields["image"]); }
  }

  lemma {:induction false} PathEffect(s: Source, fields: map<string, Json>)
    ensures SetPath(s, fields).Ok? <==> "path" in fields ==> s.VmcpProxy? && NonBlank(fields["path"])
    ensures var r := SetPath(s, fields);
            r.Ok? ==> if s.VmcpProxy? then
                        && r.value.VmcpProxy? && Rewritten(fields, "path", s.path, r.value.path)
                        && r.value.peer == s.peer && r.value.port == s.port && r.value.bearer == s.bearer
                      else r.value == s
  {
    if "path" in fields { TextIs(fields["path"]); }
  }

  lemma {:induction false} BearerFieldIs(j: Json)
    ensures BearerField(j).Ok? <==> BearerFits(j)
    ensures BearerField(j).Ok? && j == Null ==> BearerField(j).value == None
    ensures BearerField(j).Ok? && j != Null ==>
              var o, b := j.fields, BearerField(j).value;
              && b.Some? && !b.value.writable && Says(o["name"], b.value.name)
              && if "key" in o then Says(o["key"], b.value.key) else b.value.key == "token"
  {
    if j.Obj? {
      if "name" in j.fields { TextIs(j.fields["name"]); }
      if "key" in j.fields { TextIs(j.fields["key"]); }
    }
  }

  lemma {:induction false} BearerEffect(s: Source, fields: map<string, Json>)
    ensures SetBearer(s, fields).Ok?
       <==> "bearerSecretRef" in fields ==> !s.ContainerImage? && BearerFits(fields["bearerSecretRef"])
    ensures var r := SetBearer(s, fields);
            r.Ok? ==> match s
                      case RemoteHttp(url, b) =>
                        r.value.RemoteHttp? && r.value.url == url && BearerSet(fields, b, r.value.bearer)
                      case ContainerImage(_, _, _, _) => r.value == s
                      case VmcpProxy(peer, path, port, b) =>
                        r.value.VmcpProxy? && r.value.peer == peer && r.value.path == path && r.value.port == port
                        && BearerSet(fields, b, r.value.bearer)
  {
    if "bearerSecretRef" in fields { BearerFieldIs(fields["bearerSecretRef"]); }
  }

  lemma {:induction false} SourceEffect(s: Source, fields: map<string, Json>)
    ensures SetSource(s, fields).Ok? <==>
              && ("url" in fields ==> s.RemoteHttp? && NonBlank(fields["url"]))
              && ("image" in fields ==> s.ContainerImage? && NonBlank(fields["image"]))
              && ("bearerSecretRef" in fields ==> !s.ContainerImage? && BearerFits(fields["bearerSecretRef"]))
              && ("path" in fields ==> s.VmcpProxy? && NonBlank(fields["path"]))
    ensures SetSource(s, fields).Ok? ==> SourceUpdated(fields, s, SetSource(s, fields).value)
  {
    UrlEffect(s, fields);
    if SetUrl(s, fields).Ok? {
      var s1 := SetUrl(s, fields).value;
      ImageEffect(s1, fields);
      if SetImage(s1, fields).Ok? {
        var s2 := SetImage(s1, fields).value;
        BearerEffect(s2, fields);
        if SetBearer(s2, fields).Ok? { PathEffect(SetBearer(s2, fields).value, fields); }
      }
    }
  }

  lemma {:induction false} KnownFields(fields: map<string, Json>)
    ensures fields.Keys <= FIELDS <==>
            forall f | f in fields ::
              f in ["enabled", "description", "forwardIdentity", "url", "image", "bearerSecretRef", "path"]
  {
    var names := ["enabled", "description", "forwardIdentity", "url", "image", "bearerSecretRef", "path"];
    assert forall f :: f in FIELDS <==> f in names;
  }

  /** The sparse update succeeds exactly when the fields suit the record, and then changes each field that is given,
      to the given value, and no other. */
  lemma {:induction false} ApplyFieldsEffect(m: Mcp, fields: map<string, Json>)
    ensures ApplyFields(m, fields).Ok? <==> FieldsFit(m, fields)
    ensures ApplyFields(m, fields).Ok? ==> Updated(fields, m, ApplyFields(m, fields).value)
  {
    KnownFields(fields);
    SourceEffect(m.source, fields);
    if "enabled" in fields { TruthIs(fields["enabled"]); }
    if "forwardIdentity" in fields { TruthIs(fields["forwardIdentity"]); }
  }

  // ---------------------------------------------------------------- commands

  /** A record that may be stored: beside its gateway, named without blanks at the ends, with a non-blank text and, for
      a proxy, another gateway as its peer and a real port. */
  predicate Acceptable(m: Mcp) {
    && m.gateway.namespace == m.namespace && m.name != "" && Strip(m.name) == m.name
    && match m.source
       case RemoteHttp(url, _) => Strip(url) != ""
       case ContainerImage(image, _, _, _) => Strip(image) != ""
       case VmcpProxy(peer, path, port, _) => peer != m.gateway && Strip(path) != "" && 1 <= port && port <= 65535
  }

  /** A proxy's peer exists and offers its surface. */
  predicate PeerServes(gws: Gateways, m: Mcp) {
    m.source.VmcpProxy? ==> m.source.peer in gws && gws[m.source.peer].enabled
  }

  /** The path a proxy ends up with: the peer's, where it names one and the record leaves it at the default. */
  function PathOver(gws: Gateways, peer: GatewayKey, path: string): string {
    if peer in gws && (path == "" || path == "/mcp-proxy") && gws[peer].path != "" then gws[peer].path else path
  }

  function Inherited(gws: Gateways, m: Mcp): Mcp {
    match m.source
    case VmcpProxy(peer, path, _, _) => m.(source := m.source.(path := PathOver(gws, peer, path)))
    case _ => m
  }

  lemma {:induction false} ResolveEffect(gws: Gateways, m: Mcp)
    ensures ResolveProxy(gws, m).Ok? <==> PeerServes(gws, m)
    ensures ResolveProxy(gws, m).Ok? ==> ResolveProxy(gws, m).value == Inherited(gws, m)
    ensures ResolveProxy(gws, m).Err? ==>
              ResolveProxy(gws, m).error == if m.source.peer in gws then Invalid else NotFound
  {
  }

  lemma {:induction false} AcceptableIs(m: Mcp)
    ensures Acceptable(m) <==> ValidMcp(m)
  {
  }

  /** An add: refused unless the record is acceptable, its gateway is known, its peer, if it has one, serves, and its
      key is free; then stored with its path inherited, and answered with. */
  lemma {:induction false} AddEffect(items: Items, gws: Gateways, m: Mcp)
    ensures var k := m.namespace + "/" + m.name;
            Do(items, gws, Add(m))
            == if !Acceptable(m) then (items, Err(Invalid))
               else if m.gateway !in gws then (items, Err(NotFound))
               else if !PeerServes(gws, m) then (items, Err(if m.source.peer in gws then Invalid else NotFound))
               else if k in items then (items, Err(Conflict))
               else (items[k := Inherited(gws, m)], Ok(Inherited(gws, m)))
  {
    AcceptableIs(m);
    ResolveEffect(gws, m);
    assert CatKey(m.namespace, m.name) == m.namespace + "/" + m.name;
  }

  lemma {:induction false} UpdatedIsAcceptable(fields: map<string, Json>, m: Mcp, m': Mcp)
    requires ValidMcp(m) && Updated(fields, m, m')
    ensures ValidMcp(m')
  {
    RewrittenNonBlank(fields, "url", if m.source.RemoteHttp? then m.source.url else "x",
                      if m'.source.RemoteHttp? then m'.source.url else "x");
    RewrittenNonBlank(fields, "image", if m.source.ContainerImage? then m.source.image else "x",
                      if m'.source.ContainerImage? then m'.source.image else "x");
    RewrittenNonBlank(fields, "path", if m.source.VmcpProxy? then m.source.path else "x",
                      if m'.source.VmcpProxy? then m'.source.path else "x");
  }

  lemma {:induction false} RewrittenNonBlank(fields: map<string, Json>, k: string, before: string, after: string)
    ensures Rewritten(fields, k, before, after) && Strip(before) != "" ==> Strip(after) != ""
  {
    if k in fields && Rewritten(fields, k, before, after) {
      var s :| Says(fields[k], s) && after == Strip(s) && after != "";
      StripTwice(s);
    }
  }

  lemma {:induction false} StripTwice(s: string)
    ensures Strip(Strip(s)) == Strip(s)
  {
    var t := Strip(s);
    if t != "" { StripIdentity(t); } else { StripBlank(t); }
  }

  lemma {:induction false} UpdateRefused(items: Items, gws: Gateways, g: GatewayKey, name: string,
                                         fields: map<string, Json>)
    requires g in gws && Owned(items, g, name).Ok?
    requires var r := ApplyFields(Owned(items, g, name).value, fields);
             r.Err? || ResolveProxy(gws, r.value).Err?
    ensures DoUpdate(items, gws, g, name, fields).0 == items && DoUpdate(items, gws, g, name, fields).1.Err?
  {
  }

  lemma {:induction false} PeerKeptByUpdate(gws: Gateways, fields: map<string, Json>, m: Mcp, m': Mcp)
    requires Updated(fields, m, m')
    ensures PeerServes(gws, m') <==> PeerServes(gws, m)
    ensures CatKey(m'.namespace, m'.name) == CatKey(m.namespace, m.name)
  {
  }

  lemma {:induction false} UpdateByCases(items: Items, gws: Gateways, g: GatewayKey, name: string,
                                         fields: map<string, Json>, m: Mcp) returns (m': Mcp)
    requires g in gws && Owned(items, g, name) == Ok(m) && SoundAt(CatKey(g.namespace, name), m)
    ensures if FieldsFit(m, fields) && PeerServes(gws, m) then
              && Updated(fields, m, m')
              && DoUpdate(items, gws, g, name, fields)
                 == (items[CatKey(g.namespace, name) := Inherited(gws, m')], Ok(Inherited(gws, m')))
            else DoUpdate(items, gws, g, name, fields).0 == items && DoUpdate(items, gws, g, name, fields).1.Err?
  {
    m' := m;
    ApplyFieldsEffect(m, fields);
    if FieldsFit(m, fields) {
      m' := ApplyFields(m, fields).value;
      PeerKeptByUpdate(gws, fields, m, m');
      ResolveEffect(gws, m');
      if PeerServes(gws, m) {
        UpdatedIsAcceptable(fields, m, m');
        UpdateBy(items, gws, g, name, fields, m, m', Inherited(gws, m'));
      } else {
        UpdateRefused(items, gws, g, name, fields);
      }
    } else {
      UpdateRefused(items, gws, g, name, fields);
    }
  }

  /** What an update needs: a stored record of that gateway whose fields suit it and whose peer serves. */
  predicate UpdateFits(items: Items, gws: Gateways, g: GatewayKey, name: string, fields: map<string, Json>) {
    var k := g.namespace + "/" + name;
    g in gws && k in items && items[k].gateway == g && FieldsFit(items[k], fields) && PeerServes(gws, items[k])
  }

  /** An update succeeds exactly then, and stores the record with the given fields changed and its path inherited. */
  lemma {:induction false} UpdateEffect(items: Items, gws: Gateways, g: GatewayKey, name: string,
                                        fields: map<string, Json>) returns (m': Mcp)
    requires Sound(items)
    ensures var k := g.namespace + "/" + name;
            if UpdateFits(items, gws, g, name, fields) then
              && Updated(fields, items[k], m')
              && Do(items, gws, Update(g, name, fields)) == (items[k := Inherited(gws, m')], Ok(Inherited(gws, m')))
            else
              && Do(items, gws, Update(g, name, fields)).0 == items
              && Do(items, gws, Update(g, name, fields)).1.Err?
  {
    var k := CatKey(g.namespace, name);
    if k in items {
      m' := items[k];
      if g in gws && m'.gateway == g { m' := UpdateByCases(items, gws, g, name, fields, m'); }
    } else {
      m' := Mcp(g.namespace, name, g, true, None, RemoteHttp("", None), [], [], [], false);
    }
  }

  /** A removal succeeds exactly for a stored record of that gateway, and takes it away. */
  lemma {:induction false} RemoveEffect(items: Items, gws: Gateways, g: GatewayKey, name: string)
    ensures var (items', r) := Do(items, gws, Remove(g, name));
            var k := g.namespace + "/" + name;
            && (r.Ok? <==> g in gws && k in items && items[k].gateway == g)
            && (r.Ok? ==> r.value == items[k] && items' == items - {k})
            && (r.Err? ==> items' == items && r.error == NotFound)
  {
  }
}
