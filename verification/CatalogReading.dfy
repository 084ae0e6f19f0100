/** What the catalogs answer, spelled out: which stored objects are rows of a gateway, and what each call does to every
    later lookup. */
module CatalogReading {
  import opened Common
  import opened McpCodec
  import opened McpCodecRoundTrip
  import opened PyValues
  import opened McpReading
  import opened Catalog

  /** The gateway name an object carries; nothing counts as the empty name. */
  ghost predicate Names(spec: map<string, Json>, gateway: string) {
    exists ref :: ObjectAt(spec, "gatewayRef", ref) && TextOr(ref, "name", "", gateway)
  }

  lemma {:induction false} NameIff(ref: map<string, Json>, s: string)
    ensures StrGet(ref, "name", "") == Ok(s) <==> TextOr(ref, "name", "", s)
  {
    if "name" in ref { SaysIs(ref["name"], s); }
  }

  lemma {:induction false} RefersIff(spec: map<string, Json>, name: string, b: bool)
    ensures RefersTo(spec, name) == Ok(b) <==> exists s :: Names(spec, s) && b == (s == name)
  {
    forall ref ensures ObjGet(spec, "gatewayRef") == Ok(ref) <==> ObjectAt(spec, "gatewayRef", ref) {
      ObjectIff(spec, "gatewayRef", ref);
    }
    if ObjGet(spec, "gatewayRef").Ok? {
      var ref := ObjGet(spec, "gatewayRef").value;
      forall s ensures StrGet(ref, "name", "") == Ok(s) <==> TextOr(ref, "name", "", s) { NameIff(ref, s); }
      if StrGet(ref, "name", "").Ok? {
        var s := StrGet(ref, "name", "").value;
        assert Names(spec, s);
        assert forall t | Names(spec, t) :: t == s;
      }
    }
  }

  lemma {:induction false} OneText(j: Json, s: string, t: string)
    requires Says(j, s) && Says(j, t)
    ensures s == t
  {
  }

  lemma {:induction false} NamesIff(spec: map<string, Json>, ref: map<string, Json>, gateway: string, s: string)
    requires "gatewayRef" in spec && spec["gatewayRef"] == Obj(ref) && TextAt(ref, "name", gateway)
    ensures Names(spec, s) <==> s == gateway
  {
    assert "name" in ref;
    assert ObjectAt(spec, "gatewayRef", ref) && TextOr(ref, "name", "", gateway);
    if Names(spec, s) {
      var other :| ObjectAt(spec, "gatewayRef", other) && TextOr(other, "name", "", s);
      assert other == ref;
      OneText(ref["name"], s, gateway);
    }
  }

  /** A described record names its own gateway. */
  lemma {:induction false} ReadsNames(ns: string, n: string, spec: map<string, Json>, m: Mcp)
    requires Reads(ns, n, spec, m)
    ensures forall s :: Names(spec, s) <==> s == m.gateway.name
  {
    forall s ensures Names(spec, s) <==> s == m.gateway.name {
      NamesIff(spec, spec["gatewayRef"].fields, m.gateway.name, s);
    }
  }

  /** One object in a listing: a row exactly when it describes a record of this gateway, skipped exactly when it names
      another one. */
  lemma {:induction false} RowIff(p: (string, string), spec: map<string, Json>, g: GatewayKey, m: Mcp)
    ensures RowOf(p, spec, g) == Ok(Some(m)) <==> Reads(p.0, p.1, spec, m) && m.gateway.name == g.name
    ensures RowOf(p, spec, g) == Ok(None) <==> exists s :: Names(spec, s) && s != g.name
  {
    RefersIff(spec, g.name, true);
    RefersIff(spec, g.name, false);
    MapMcpIff(p.0, p.1, spec, m);
    if Reads(p.0, p.1, spec, m) {
      ReadsNames(p.0, p.1, spec, m);
      assert Names(spec, m.gateway.name);
    }
    if RowOf(p, spec, g) == Ok(Some(m)) {
      var s :| Names(spec, s) && s == g.name;
    }
  }

  /** The rows of a clean listing: the described records of this gateway's namespace and name. */
  lemma {:induction false} RowsAre(crs: CrStore, g: GatewayKey, m: Mcp)
    requires ListsCleanly(crs, g)
    ensures m in KubeRows(crs, g)
       <==> && (m.namespace, m.name) in crs && Reads(m.namespace, m.name, crs[(m.namespace, m.name)], m)
            && m.namespace == g.namespace && m.gateway.name == g.name
  {
    var own := (m.namespace, m.name);
    if m in KubeRows(crs, g) {
      var p :| p in crs && p.0 == g.namespace && RowOf(p, crs[p], g) == Ok(Some(m));
      RowIff(p, crs[p], g, m);
      assert p == own;
    }
    if own in crs { RowIff(own, crs[own], g, m); }
  }

  /** A listing fails exactly for an object of the namespace that names this gateway, or no readable name, and describes
      no record. */
  lemma {:induction false} CleanIff(crs: CrStore, g: GatewayKey)
    ensures ListsCleanly(crs, g)
       <==> forall p | p in crs && p.0 == g.namespace ::
              (exists s :: Names(crs[p], s) && s != g.name)
              || exists m :: Reads(p.0, p.1, crs[p], m) && m.gateway.name == g.name
  {
    forall p | p in crs
      ensures RowOf(p, crs[p], g).Ok?
         <==> (exists s :: Names(crs[p], s) && s != g.name)
              || exists m :: Reads(p.0, p.1, crs[p], m) && m.gateway.name == g.name
    {
      RowOk(p, crs[p], g);
    }
  }

  lemma {:induction false} RowOk(p: (string, string), spec: map<string, Json>, g: GatewayKey)
    ensures RowOf(p, spec, g).Ok?
       <==> (exists s :: Names(spec, s) && s != g.name)
            || exists m :: Reads(p.0, p.1, spec, m) && m.gateway.name == g.name
  {
    forall m ensures RowOf(p, spec, g) == Ok(Some(m)) <==> Reads(p.0, p.1, spec, m) && m.gateway.name == g.name {
      RowIff(p, spec, g, m);
    }
    if RowOf(p, spec, g).Ok? && RowOf(p, spec, g).value.Some? {
      RowIff(p, spec, g, RowOf(p, spec, g).value.value);
    } else {
      RefersIff(spec, g.name, false);
      RefersIff(spec, g.name, true);
    }
  }

  /** A lookup answers with the described record of that very object, or with nothing exactly when there is none. */
  lemma {:induction false} LookupIff(crs: CrStore, ns: string, n: string, m: Mcp)
    ensures KubeGet(crs, ns, n) == Ok(Some(m)) <==> (ns, n) in crs && Reads(ns, n, crs[(ns, n)], m)
    ensures KubeGet(crs, ns, n) == Ok(None) <==> (ns, n) !in crs
  {
    if (ns, n) in crs { MapMcpIff(ns, n, crs[(ns, n)], m); }
  }

  /** The dict: what a call leaves for a later lookup, and for a later listing. */
  lemma {:induction false} DictLaws(items: map<string, Mcp>, m: Mcp, ns: string, n: string, g: GatewayKey)
    requires SlashFree(m.namespace) && SlashFree(ns)
    ensures var after := MemStep(items, Call.Upsert(m)).0;
            && MemStep(items, Call.Upsert(m)).1 == Stored(Ok(m))
            && MemStep(after, Lookup(ns, n)).1
               == (if (ns, n) == (m.namespace, m.name) then Found(Ok(Some(m))) else MemStep(items, Lookup(ns, n)).1)
    ensures var after := MemStep(items, Call.Delete(m.namespace, m.name)).0;
            && (MemStep(items, Call.Delete(m.namespace, m.name)).1 == Deleted(true)
                <==> MemStep(items, Lookup(m.namespace, m.name)).1 != Found(Ok(None)))
            && MemStep(after, Lookup(ns, n)).1
               == (if (ns, n) == (m.namespace, m.name) then Found(Ok(None)) else MemStep(items, Lookup(ns, n)).1)
    ensures MemStep(items, Lookup(ns, n)).0 == items && MemStep(items, Call.List(g)).0 == items
    ensures m in MemRows(items, g) <==> m.gateway == g && exists k :: k in items && items[k] == m
  {
    if CatKey(ns, n) == CatKey(m.namespace, m.name) { CatKeyInjective(ns, n, m.namespace, m.name); }
  }
}
