/** The two MCP catalogs (`mcp_catalog.py`): a dict keyed by "namespace/name", and the one that
    keeps custom resources behind the API server. The second refines the first. */
module Catalog {
  import opened Common
  import opened McpCodec
  import opened McpCodecRoundTrip

  /** `f"{namespace}/{name}"`. */
  function CatKey(namespace: string, name: string): string {
    namespace + "/" + name
  }

  /** The API server: one spec per (namespace, name). */
  type CrStore = map<(string, string), map<string, Json>>

  // ---------------------------------------------------------------- what one call does

  datatype Call =
    | Upsert(m: Mcp) | Lookup(namespace: string, name: string)
    | Delete(namespace: string, name: string) | List(g: GatewayKey)

  datatype Answer =
    | Stored(m: Res<Mcp>) | Found(m': Res<Option<Mcp>>) | Deleted(gone: bool) | Rows(rows: Res<set<Mcp>>)

  function MemRows(items: map<string, Mcp>, g: GatewayKey): set<Mcp> {
    set k | k in items && items[k].gateway == g :: items[k]
  }

  function MemStep(items: map<string, Mcp>, c: Call): (map<string, Mcp>, Answer) {
    match c
    case Upsert(m) => (items[CatKey(m.namespace, m.name) := m], Stored(Ok(m)))
    case Lookup(ns, n) =>
      (items, Found(Ok(if CatKey(ns, n) in items then Some(items[CatKey(ns, n)]) else None)))
    case Delete(ns, n) => (items - {CatKey(ns, n)}, Deleted(CatKey(ns, n) in items))
    case List(g) => (items, Rows(Ok(MemRows(items, g))))
  }

  /** `str((spec.get("gatewayRef") or {}).get("name", "")) == key.name`. */
  function RefersTo(spec: map<string, Json>, name: string): Res<bool> {
    match ObjGet(spec, "gatewayRef")
    case Err(e) => Err(e)
    case Ok(ref) =>
      match StrGet(ref, "name", "")
      case Err(e) => Err(e)
      case Ok(s) => Ok(s == name)
  }

  /** What the listing loop makes of one object: skipped, a row, or an exception. */
  function RowOf(p: (string, string), spec: map<string, Json>, g: GatewayKey): Res<Option<Mcp>> {
    match RefersTo(spec, g.name)
    case Err(e) => Err(e)
    case Ok(false) => Ok(None)
    case Ok(true) =>
      match MapMcp(p.0, p.1, spec)
      case Ok(m) => Ok(Some(m))
      case Err(e) => Err(e)
  }

  predicate ListsCleanly(crs: CrStore, g: GatewayKey) {
    forall p | p in crs && p.0 == g.namespace :: RowOf(p, crs[p], g).Ok?
  }

  function KubeRows(crs: CrStore, g: GatewayKey): set<Mcp>
    requires ListsCleanly(crs, g)
  {
    set p | p in crs && p.0 == g.namespace && RowOf(p, crs[p], g).value.Some? :: RowOf(p, crs[p], g).value.value
  }

  function KubeGet(crs: CrStore, ns: string, n: string): Res<Option<Mcp>> {
    if (ns, n) !in crs then Ok(None)
    else match MapMcp(ns, n, crs[(ns, n)])
      case Ok(m) => Ok(Some(m))
      case Err(e) => Err(e)
  }

  /** A listing that fails reports some failure; which one depends on the API server's order. */
  ghost predicate KubeStep(crs: CrStore, c: Call, crs': CrStore, a: Answer) {
    match c
    case Upsert(m) =>
      if m.gateway.namespace != m.namespace then crs' == crs && a == Stored(Err(ValueError))
      else crs' == crs[(m.namespace, m.name) := CrdSpec(m)]
           && a == Stored(MapMcp(m.namespace, m.name, CrdSpec(m)))
    case Lookup(ns, n) => crs' == crs && a == Found(KubeGet(crs, ns, n))
    case Delete(ns, n) => crs' == crs - {(ns, n)} && a == Deleted((ns, n) in crs)
    case List(g) =>
      crs' == crs && a.Rows? && (a.rows.Ok? <==> ListsCleanly(crs, g))
      && (a.rows.Ok? ==> a.rows.value == KubeRows(crs, g))
  }

  /** A list without repetition of exactly the rows. */
  ghost predicate IsListing(rows: seq<Mcp>, s: set<Mcp>) {
    (forall i, j | 0 <= i < j < |rows| :: rows[i] != rows[j]) && (forall m :: m in rows <==> m in s)
  }

  // ---------------------------------------------------------------- the classes

  class InMemoryMcpCatalog {
    var items: map<string, Mcp>

    constructor ()
      ensures items == map[]
    {
      items := map[];
    }

    /** Every record sits under its own key, so no record is listed twice. */
    ghost predicate Keyed()
      reads this
    {
      forall k | k in items :: k == CatKey(items[k].namespace, items[k].name)
    }

    method ListForGateway(g: GatewayKey) returns (rows: seq<Mcp>)
      requires Keyed()
      ensures IsListing(rows, MemRows(items, g))
    {
      rows := [];
      var rest := items.Keys;
      while rest != {}
        invariant rest <= items.Keys
        invariant forall i, j | 0 <= i < j < |rows| :: rows[i] != rows[j]
        invariant forall m :: m in rows <==> exists k :: k in items && k !in rest && items[k] == m && m.gateway == g
      {
        var k :| k in rest;
        if items[k].gateway == g {
          assert forall i | 0 <= i < |rows| :: rows[i] != items[k] by {
            forall i | 0 <= i < |rows| ensures rows[i] != items[k] {
              assert rows[i] in rows;
            }
          }
          rows := rows + [items[k]];
        }
        rest := rest - {k};
      }
    }

    method Get(namespace: string, name: string) returns (m: Option<Mcp>)
      ensures Found(Ok(m)) == MemStep(items, Lookup(namespace, name)).1
    {
      var k := CatKey(namespace, name);
      m := if k in items then Some(items[k]) else None;
    }

    method Upsert(m: Mcp) returns (stored: Mcp)
      modifies this
      ensures (items, Stored(Ok(stored))) == MemStep(old(items), Call.Upsert(m))
    {
      items := items[CatKey(m.namespace, m.name) := m];
      stored := m;
    }

    method Delete(namespace: string, name: string) returns (gone: bool)
      modifies this
      ensures (items, Deleted(gone)) == MemStep(old(items), Call.Delete(namespace, name))
    {
      var k := CatKey(namespace, name);
      gone := k in items;
      items := items - {k};
    }
  }

  /** `rows` lists, without repetition, what the objects in `seen` contribute. */
  ghost predicate RowsOf(crs: CrStore, seen: set<(string, string)>, g: GatewayKey, rows: seq<Mcp>) {
    && (forall p | p in seen && p in crs && p.0 == g.namespace :: RowOf(p, crs[p], g).Ok?)
    && (forall i, j | 0 <= i < j < |rows| :: rows[i] != rows[j])
    && (forall m :: m in rows <==> ContributedBy(crs, seen, g, m))
  }

  ghost predicate ContributedBy(crs: CrStore, seen: set<(string, string)>, g: GatewayKey, m: Mcp) {
    exists p :: p in seen && p in crs && p.0 == g.namespace && RowOf(p, crs[p], g) == Ok(Some(m))
  }

  /** A row carries the identity of the object it came from. */
  lemma {:induction false} RowIsLocal(crs: CrStore, g: GatewayKey, p: (string, string), m: Mcp)
    requires p in crs && RowOf(p, crs[p], g) == Ok(Some(m))
    ensures p == (m.namespace, m.name)
  {
    MappedIsLocal(p.0, p.1, crs[p]);
  }

  lemma {:induction false} ContributedStep(crs: CrStore, seen: set<(string, string)>, g: GatewayKey,
                                           p: (string, string), m: Mcp)
    ensures ContributedBy(crs, seen + {p}, g, m) <==>
            ContributedBy(crs, seen, g, m) || (p in crs && p.0 == g.namespace && RowOf(p, crs[p], g) == Ok(Some(m)))
  {
    if ContributedBy(crs, seen, g, m) {
      var q :| q in seen && q in crs && q.0 == g.namespace && RowOf(q, crs[q], g) == Ok(Some(m));
      assert q in seen + {p};
    }
    if p in crs && p.0 == g.namespace && RowOf(p, crs[p], g) == Ok(Some(m)) {
      assert p in seen + {p};
    }
  }

  lemma {:induction false} NewRow(crs: CrStore, seen: set<(string, string)>, g: GatewayKey, rows: seq<Mcp>,
                                  p: (string, string), m: Mcp)
    requires RowsOf(crs, seen, g, rows) && p in crs && p !in seen && RowOf(p, crs[p], g) == Ok(Some(m))
    ensures m !in rows
  {
    RowIsLocal(crs, g, p, m);
    if m in rows {
      var q :| q in seen && q in crs && q.0 == g.namespace && RowOf(q, crs[q], g) == Ok(Some(m));
      RowIsLocal(crs, g, q, m);
    }
  }

  /** Taking in one more object. */
  lemma {:induction false} RowsStep(crs: CrStore, seen: set<(string, string)>, g: GatewayKey, rows: seq<Mcp>,
                                    p: (string, string))
    requires RowsOf(crs, seen, g, rows) && p in crs && p !in seen
    requires p.0 == g.namespace ==> RowOf(p, crs[p], g).Ok?
    ensures RowsOf(crs, seen + {p}, g,
                   if p.0 == g.namespace && RowOf(p, crs[p], g).value.Some?
                   then rows + [RowOf(p, crs[p], g).value.value] else rows)
  {
    forall m ensures ContributedBy(crs, seen + {p}, g, m) <==>
                     ContributedBy(crs, seen, g, m) || (p.0 == g.namespace && RowOf(p, crs[p], g) == Ok(Some(m)))
    {
      ContributedStep(crs, seen, g, p, m);
    }
    if p.0 == g.namespace && RowOf(p, crs[p], g).value.Some? {
      NewRow(crs, seen, g, rows, p, RowOf(p, crs[p], g).value.value);
    }
  }

  lemma {:induction false} RowsDone(crs: CrStore, g: GatewayKey, rows: seq<Mcp>)
    requires RowsOf(crs, crs.Keys, g, rows)
    ensures ListsCleanly(crs, g) && IsListing(rows, KubeRows(crs, g))
  {
    assert forall p | p in crs :: p in crs.Keys;
    forall m ensures m in rows <==> m in KubeRows(crs, g) {
      if m in KubeRows(crs, g) {
        var p :| p in crs && p.0 == g.namespace && RowOf(p, crs[p], g) == Ok(Some(m));
        assert ContributedBy(crs, crs.Keys, g, m);
      }
    }
  }

  class KubeMcpCatalog {
    var crs: CrStore

    constructor ()
      ensures crs == map[]
    {
      crs := map[];
    }

    method ListForGateway(g: GatewayKey) returns (r: Res<seq<Mcp>>)
      ensures r.Ok? <==> ListsCleanly(crs, g)
      ensures r.Ok? ==> IsListing(r.value, KubeRows(crs, g))
    {
      var rows: seq<Mcp> := [];
      var rest := crs.Keys;
      ghost var seen: set<(string, string)> := {};
      while rest != {}
        invariant rest + seen == crs.Keys && rest !! seen
        invariant RowsOf(crs, seen, g, rows)
      {
        var p :| p in rest;
        if p.0 == g.namespace {
          var row := RowOf(p, crs[p], g);
          if row.Err? {
            return Err(row.error);
          }
          RowsStep(crs, seen, g, rows, p);
          if row.value.Some? {
            rows := rows + [row.value.value];
          }
        } else {
          RowsStep(crs, seen, g, rows, p);
        }
        rest := rest - {p};
        seen := seen + {p};
      }
      RowsDone(crs, g, rows);
      return Ok(rows);
    }

    method Get(namespace: string, name: string) returns (m: Res<Option<Mcp>>)
      ensures KubeStep(crs, Lookup(namespace, name), crs, Found(m))
    {
      if (namespace, name) !in crs {
        return Ok(None);
      }
      var mapped := MapMcp(namespace, name, crs[(namespace, name)]);
      return match mapped case Ok(x) => Ok(Some(x)) case Err(e) => Err(e);
    }

    method Upsert(m: Mcp) returns (stored: Res<Mcp>)
      modifies this
      ensures KubeStep(old(crs), Call.Upsert(m), crs, Stored(stored))
    {
      var body := McpToCrd(m);
      if body.Err? {
        return Err(body.error);
      }
      crs := crs[(m.namespace, m.name) := body.value];
      stored := MapMcp(m.namespace, m.name, crs[(m.namespace, m.name)]);
    }

    method Delete(namespace: string, name: string) returns (gone: bool)
      modifies this
      ensures KubeStep(old(crs), Call.Delete(namespace, name), crs, Deleted(gone))
    {
      if (namespace, name) !in crs {
        assert crs - {(namespace, name)} == crs;
        return false;
      }
      crs := crs - {(namespace, name)};
      return true;
    }
  }

  // ---------------------------------------------------------------- refinement

  /** Kubernetes namespaces contain no slash; that is all the string key needs to be injective. */
  predicate SlashFree(s: string) {
    '/' !in s
  }

  lemma {:induction false} CatKeyInjective(ns: string, n: string, ns': string, n': string)
    requires SlashFree(ns) && SlashFree(ns')
    requires CatKey(ns, n) == CatKey(ns', n')
    ensures ns == ns' && n == n'
  {
    var k := CatKey(ns, n);
    assert k[|ns|] == '/' && k[|ns'|] == '/';
    assert forall i | 0 <= i < |ns| :: k[i] == ns[i];
    assert forall i | 0 <= i < |ns'| :: k[i] == ns'[i];
    assert |ns| == |ns'|;
    assert k[..|ns|] == ns && k[..|ns'|] == ns';
    assert k[|ns| + 1..] == n && k[|ns'| + 1..] == n';
  }

  /** With a slash in the namespace two different records would share a key. */
  lemma {:induction false} CatKeyNeedsSlashFree()
    ensures CatKey("a/b", "c") == CatKey("a", "b/c")
  {
  }

  ghost predicate LegalMcp(m: Mcp) {
    Canonical(m) && m.gateway.namespace == m.namespace && SlashFree(m.namespace)
  }

  ghost predicate LegalCall(c: Call) {
    match c
    case Upsert(m) => LegalMcp(m)
    case Lookup(ns, _) => SlashFree(ns)
    case Delete(ns, _) => SlashFree(ns)
    case List(g) => true
  }

  function Id(m: Mcp): (string, string) {
    (m.namespace, m.name)
  }

  /** A store keyed by identity mirrors a dict keyed by "namespace/name". */
  ghost predicate Mirrors<M, S>(items: map<string, M>, crs: map<(string, string), S>,
                                id: M -> (string, string), print_: M -> S)
  {
    && (forall k | k in items :: k == CatKey(id(items[k]).0, id(items[k]).1) && SlashFree(id(items[k]).0))
    && (forall k | k in items :: id(items[k]) in crs && crs[id(items[k])] == print_(items[k]))
    && (forall p | p in crs :: CatKey(p.0, p.1) in items && id(items[CatKey(p.0, p.1)]) == p)
  }

  lemma {:induction false} MirrorPut<M, S>(items: map<string, M>, crs: map<(string, string), S>,
                        id: M -> (string, string), print_: M -> S, m: M)
    requires Mirrors(items, crs, id, print_) && SlashFree(id(m).0)
    ensures Mirrors(items[CatKey(id(m).0, id(m).1) := m], crs[id(m) := print_(m)], id, print_)
  {
    forall p | p in crs && CatKey(p.0, p.1) == CatKey(id(m).0, id(m).1) ensures p == id(m) {
      CatKeyInjective(p.0, p.1, id(m).0, id(m).1);
    }
  }

  lemma {:induction false} MirrorDrop<M, S>(items: map<string, M>, crs: map<(string, string), S>,
                         id: M -> (string, string), print_: M -> S, ns: string, n: string)
    requires Mirrors(items, crs, id, print_) && SlashFree(ns)
    ensures CatKey(ns, n) in items <==> (ns, n) in crs
    ensures CatKey(ns, n) in items ==> id(items[CatKey(ns, n)]) == (ns, n)
    ensures Mirrors(items - {CatKey(ns, n)}, crs - {(ns, n)}, id, print_)
  {
    if CatKey(ns, n) in items {
      var i := id(items[CatKey(ns, n)]);
      CatKeyInjective(ns, n, i.0, i.1);
    }
    forall p | p in crs && CatKey(p.0, p.1) == CatKey(ns, n) ensures p == (ns, n) {
      CatKeyInjective(p.0, p.1, ns, n);
    }
  }

  /** The resources are exactly the printed records of the dict. */
  ghost predicate Represents(items: map<string, Mcp>, crs: CrStore) {
    Mirrors(items, crs, Id, CrdSpec) && forall k | k in items :: LegalMcp(items[k])
  }

  lemma {:induction false} PrintedRefers(m: Mcp, name: string)
    ensures RefersTo(CrdSpec(m), name) == Ok(m.gateway.name == name)
  {
    SpecNames(m);
    SpecBaseKey(m, "gatewayRef");
    var ref := map["name" := Str(m.gateway.name)];
    assert "name" in ref;
    assert ObjGet(CrdSpec(m), "gatewayRef") == Ok(ref);
    assert StrGet(ref, "name", "") == Ok(m.gateway.name);
  }

  lemma {:induction false} PrintedRow(m: Mcp, g: GatewayKey)
    requires LegalMcp(m) && m.namespace == g.namespace
    ensures RowOf((m.namespace, m.name), CrdSpec(m), g) == Ok(if m.gateway == g then Some(m) else None)
  {
    PrintedRefers(m, g.name);
    RoundTripIffCanonical(m);
  }

  lemma {:induction false} RowAgrees(items: map<string, Mcp>, crs: CrStore, g: GatewayKey, p: (string, string))
    requires Represents(items, crs) && p in crs && p.0 == g.namespace
    ensures CatKey(p.0, p.1) in items
    ensures var m := items[CatKey(p.0, p.1)];
            p == (m.namespace, m.name) && RowOf(p, crs[p], g) == Ok(if m.gateway == g then Some(m) else None)
  {
    var m := items[CatKey(p.0, p.1)];
    assert LegalMcp(m) && p == Id(m) && crs[Id(m)] == CrdSpec(m);
    PrintedRow(m, g);
  }

  lemma {:induction false} ListIsClean(items: map<string, Mcp>, crs: CrStore, g: GatewayKey)
    requires Represents(items, crs)
    ensures ListsCleanly(crs, g)
  {
    forall p | p in crs && p.0 == g.namespace ensures RowOf(p, crs[p], g).Ok? {
      RowAgrees(items, crs, g, p);
    }
  }

  lemma {:induction false} KubeRowIsStored(items: map<string, Mcp>, crs: CrStore, g: GatewayKey, m: Mcp)
    requires Represents(items, crs) && ListsCleanly(crs, g) && m in KubeRows(crs, g)
    ensures m in MemRows(items, g)
  {
    var p :| p in crs && p.0 == g.namespace && RowOf(p, crs[p], g) == Ok(Some(m));
    RowAgrees(items, crs, g, p);
  }

  lemma {:induction false} StoredIsKubeRow(items: map<string, Mcp>, crs: CrStore, g: GatewayKey, m: Mcp)
    requires Represents(items, crs) && ListsCleanly(crs, g) && m in MemRows(items, g)
    ensures m in KubeRows(crs, g)
  {
    var k :| k in items && items[k] == m && m.gateway == g;
    assert Id(m) in crs;
    RowAgrees(items, crs, g, Id(m));
  }

  lemma {:induction false} ListAgrees(items: map<string, Mcp>, crs: CrStore, g: GatewayKey)
    requires Represents(items, crs)
    ensures ListsCleanly(crs, g) && KubeRows(crs, g) == MemRows(items, g)
  {
    ListIsClean(items, crs, g);
    forall m ensures m in KubeRows(crs, g) <==> m in MemRows(items, g) {
      if m in KubeRows(crs, g) { KubeRowIsStored(items, crs, g, m); }
      if m in MemRows(items, g) { StoredIsKubeRow(items, crs, g, m); }
    }
  }

  lemma {:induction false} LookupAgrees(items: map<string, Mcp>, crs: CrStore, ns: string, n: string)
    requires Represents(items, crs) && SlashFree(ns)
    ensures KubeGet(crs, ns, n) == Ok(if CatKey(ns, n) in items then Some(items[CatKey(ns, n)]) else None)
  {
    MirrorDrop(items, crs, Id, CrdSpec, ns, n);
    if CatKey(ns, n) in items {
      var m := items[CatKey(ns, n)];
      assert LegalMcp(m);
      RoundTripIffCanonical(m);
    }
  }

  lemma {:induction false} StepAgrees(items: map<string, Mcp>, crs: CrStore, c: Call, crs': CrStore, a: Answer)
    requires Represents(items, crs) && LegalCall(c) && KubeStep(crs, c, crs', a)
    ensures MemStep(items, c).1 == a && Represents(MemStep(items, c).0, crs')
  {
    match c {
      case Upsert(m) =>
        MirrorPut(items, crs, Id, CrdSpec, m);
        RoundTripIffCanonical(m);
      case Lookup(ns, n) => LookupAgrees(items, crs, ns, n);
      case Delete(ns, n) =>
        MirrorDrop(items, crs, Id, CrdSpec, ns, n);
      case List(g) => ListAgrees(items, crs, g);
    }
  }

  /** Every answer of a run against the dict. */
  function MemRun(items: map<string, Mcp>, calls: seq<Call>): seq<Answer>
    decreases |calls|
  {
    if calls == [] then []
    else [MemStep(items, calls[0]).1] + MemRun(MemStep(items, calls[0]).0, calls[1..])
  }

  /** `answers` can be observed when the calls run against the API server. */
  ghost predicate KubeRun(crs: CrStore, calls: seq<Call>, answers: seq<Answer>)
    decreases |calls|
  {
    |answers| == |calls|
    && (calls == []
        || exists crs' :: KubeStep(crs, calls[0], crs', answers[0]) && KubeRun(crs', calls[1..], answers[1..]))
  }

  /** The first step of an observed run. */
  lemma {:induction false} FirstStep(crs: CrStore, calls: seq<Call>, answers: seq<Answer>) returns (crs': CrStore)
    requires calls != [] && KubeRun(crs, calls, answers)
    ensures KubeStep(crs, calls[0], crs', answers[0]) && KubeRun(crs', calls[1..], answers[1..])
    ensures answers == [answers[0]] + answers[1..]
  {
    crs' :| KubeStep(crs, calls[0], crs', answers[0]) && KubeRun(crs', calls[1..], answers[1..]);
    assert answers == [answers[0]] + answers[1..];
  }

  ghost predicate LegalCalls(calls: seq<Call>) {
    forall i | 0 <= i < |calls| :: LegalCall(calls[i])
  }

  lemma {:induction false} LegalTail(calls: seq<Call>)
    requires LegalCalls(calls) && calls != []
    ensures LegalCall(calls[0]) && LegalCalls(calls[1..])
  {
  }

  /** Every sequence of legal calls gets the same answers from both catalogs. */
  lemma {:induction false} CatalogsAgree(items: map<string, Mcp>, crs: CrStore, calls: seq<Call>, answers: seq<Answer>)
    requires Represents(items, crs) && LegalCalls(calls) && KubeRun(crs, calls, answers)
    ensures answers == MemRun(items, calls)
    decreases |calls|
  {
    if calls != [] {
      var crs' := FirstStep(crs, calls, answers);
      LegalTail(calls);
      StepAgrees(items, crs, calls[0], crs', answers[0]);
      CatalogsAgree(MemStep(items, calls[0]).0, crs', calls[1..], answers[1..]);
    }
  }

  /** Two listings of the same rows of one gateway sort to the same list (`ListMcps`), whatever
      order the dict or the API server produced. */
  lemma {:induction false} SortedListingsEqual(a: seq<Mcp>, b: seq<Mcp>, s: set<Mcp>)
    requires IsListing(a, s) && IsListing(b, s)
    requires forall m, n | m in s && n in s && m.name == n.name :: m == n
    ensures SortBy((m: Mcp) => m.name, a) == SortBy((m: Mcp) => m.name, b)
  {
    var key := (m: Mcp) => m.name;
    ListingMultiset(a, s);
    ListingMultiset(b, s);
    assert DistinctBy(key, a) by {
      forall i, j | 0 <= i < j < |a| ensures key(a[i]) != key(a[j]) {
        assert a[i] in a && a[j] in a;
      }
    }
    SortByOrderFree(key, a, b);
  }

  lemma {:induction false} ListingMultiset(rows: seq<Mcp>, s: set<Mcp>)
    requires IsListing(rows, s)
    ensures multiset(rows) == multiset(s)
  {
    if rows == [] {
      assert s == {};
    } else {
      assert rows == [rows[0]] + rows[1..];
      assert rows[0] in s && rows[0] !in rows[1..];
      ListingMultiset(rows[1..], s - {rows[0]});
    }
  }

  /** A gateway's rows in a represented catalog have distinct names. */
  lemma {:induction false} RowNamesDistinct(items: map<string, Mcp>, g: GatewayKey, m: Mcp, n: Mcp)
    requires forall k | k in items :: k == CatKey(Id(items[k]).0, Id(items[k]).1) && LegalMcp(items[k])
    requires m in MemRows(items, g) && n in MemRows(items, g) && m.name == n.name
    ensures m == n
  {
  }

  /** `ListMcps` sorts by name: over a represented catalog both implementations hand back one and
      the same list, whatever order their stores iterate in. */
  lemma {:induction false} ListMcpsAgrees(items: map<string, Mcp>, crs: CrStore, g: GatewayKey, mem: seq<Mcp>,
                                          kube: seq<Mcp>)
    requires Represents(items, crs)
    requires IsListing(mem, MemRows(items, g))
    requires ListsCleanly(crs, g) && IsListing(kube, KubeRows(crs, g))
    ensures SortBy((m: Mcp) => m.name, mem) == SortBy((m: Mcp) => m.name, kube)
  {
    ListAgrees(items, crs, g);
    forall m, n | m in MemRows(items, g) && n in MemRows(items, g) && m.name == n.name ensures m == n {
      RowNamesDistinct(items, g, m, n);
    }
    SortedListingsEqual(mem, kube, MemRows(items, g));
  }
}
