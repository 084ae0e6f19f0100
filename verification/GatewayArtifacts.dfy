/** From a gateway's MCP records to its registry and to its Deployment's environment
    (`reconcile_artifacts.py`, `_gateway_env` in `render_gateway_manifests.py`): two renderers
    written separately that have to agree on the bearer variables. */
module GatewayArtifacts {
  import opened Common
  import M = McpCodec
  import Naming
  import opened Artifacts
  import opened Bundle

  function McpName(m: M.Mcp): string { m.name }

  predicate Serves(g: GatewayKey, m: M.Mcp) {
    m.enabled && m.gateway == g
  }

  function ServedBy(g: GatewayKey): M.Mcp -> bool {
    m => Serves(g, m)
  }

  function Filter<T>(p: T -> bool, s: seq<T>): seq<T> {
    if s == [] then [] else (if p(s[0]) then [s[0]] else []) + Filter(p, s[1..])
  }

  /** The MCPs a gateway serves, in name order. */
  function Served(g: GatewayKey, mcps: seq<M.Mcp>): seq<M.Mcp> {
    SortBy(McpName, Filter(ServedBy(g), mcps))
  }

  function BearerRef(m: M.Mcp): Option<M.SecretRef> {
    if m.source.ContainerImage? then None else m.source.bearer
  }

  // ---------------------------------------------------------------- upstreams

  function Digits(n: nat): string {
    if n < 10 then [(n + '0' as int) as char] else Digits(n / 10) + [(n % 10 + '0' as int) as char]
  }

  function Decimal(n: int): string {
    if n < 0 then "-" + Digits(-n) else Digits(n)
  }

  /** `VmcpProxySource.cluster_url`. */
  function ClusterUrl(peer: GatewayKey, port: int, path: string): string {
    "http://" + peer.name + "." + peer.namespace + ".svc:" + Decimal(port)
    + if StartsWith(path, "/") then path else "/" + path
  }

  /** The first port with the wanted name. */
  function FindPort(ports: seq<M.NamedPort>, name: string): Option<M.NamedPort> {
    if ports == [] then None else if ports[0].name == name then Some(ports[0]) else FindPort(ports[1..], name)
  }

  function Url(g: GatewayKey, m: M.Mcp): Option<string> {
    match m.source
    case RemoteHttp(url, _) => Some(url)
    case VmcpProxy(peer, path, port, _) => if peer == g then None else Some(ClusterUrl(peer, port, path))
    case ContainerImage(_, ports, ep, _) =>
      match FindPort(ports, ep.portName)
      case None => None
      case Some(p) =>
        Some("http://" + g.name + "-" + m.name + "." + g.namespace + ".svc:" + Decimal(p.containerPort) + ep.path)
  }

  /** `_to_upstream`; None when it raises. */
  function ToUpstream(g: GatewayKey, m: M.Mcp): Option<Upstream> {
    match Url(g, m)
    case None => None
    case Some(url) =>
      Some(Upstream(m.name, url, if BearerRef(m).Some? then Some(Naming.EnvName(m.name)) else None,
                    m.description, None, true, m.forwardIdentity))
  }

  function ToSupport(s: Option<string>): Option<Option<TaskSupport>> {
    match s
    case None => Some(None)
    case Some(t) =>
      if t == "forbidden" then Some(Some(Forbidden))
      else if t == "optional" then Some(Some(TaskSupport.Optional))
      else if t == "required" then Some(Some(Required))
      else None
  }

  function ToOverrides(ovs: seq<M.ToolOverride>): Option<seq<ToolOverride>> {
    if ovs == [] then Some([])
    else match (ToSupport(ovs[0].taskSupport), ToOverrides(ovs[1..]))
      case (Some(ts), Some(rest)) => Some([ToolOverride(ovs[0].name, ovs[0].readOnly, ts)] + rest)
      case _ => None
  }

  function ToEntry(g: GatewayKey, m: M.Mcp): Option<Entry> {
    match (ToUpstream(g, m), ToOverrides(m.toolOverrides))
    case (Some(u), Some(ovs)) => Some(Entry(u, ovs))
    case _ => None
  }

  /** `ReconcileGatewayArtifacts.execute` up to the call of the renderer; None when it raises. */
  method CollectEntries(g: GatewayKey, mcps: seq<M.Mcp>) returns (r: Option<seq<Entry>>)
    ensures r.Some? <==> forall i | 0 <= i < |Served(g, mcps)| :: ToEntry(g, Served(g, mcps)[i]).Some?
    ensures r.Some? ==> |r.value| == |Served(g, mcps)|
                        && forall i | 0 <= i < |r.value| :: ToEntry(g, Served(g, mcps)[i]) == Some(r.value[i])
  {
    var enabled := Filter(ServedBy(g), mcps);
    var sorted := SortBy(McpName, enabled);
    var upstreams: seq<Entry> := [];
    for i := 0 to |sorted|
      invariant |upstreams| == i
      invariant forall j | 0 <= j < i :: ToEntry(g, sorted[j]) == Some(upstreams[j])
    {
      var e := ToEntry(g, sorted[i]);
      if e.None? {
        assert ToEntry(g, Served(g, mcps)[i]).None?;
        return None;
      }
      upstreams := upstreams + [e.value];
    }
    r := Some(upstreams);
  }

  // ---------------------------------------------------------------- the Deployment environment

  datatype EnvVar = Plain(name: string, value: string) | FromSecret(name: string, secret: string, key: string)

  function FixedEnv(master: M.SecretRef, forwardAuth: Option<M.SecretRef>): seq<EnvVar> {
    [Plain("VMCP_CONFIG", "/config/vmcp.toml"),
     Plain("VMCP_REGISTRY_PATH", "/config/registry.json"),
     Plain("VMCP_SKILLS_DIR", "/state/skills"),
     FromSecret("VMCP_AUTH__MASTER_PASSWORD_ARGON2", master.name, master.key)]
    + match forwardAuth
      case Some(r) => [FromSecret("VMCP_AUTH__AUTHENTIK__FORWARD_AUTH_SECRET", r.name, r.key)]
      case None => []
  }

  /** The bearer variables of MCPs given in order. */
  function BearerEnv(ms: seq<M.Mcp>): seq<EnvVar> {
    if ms == [] then []
    else BearerEnv(ms[..|ms| - 1])
         + match BearerRef(ms[|ms| - 1])
           case Some(r) => [FromSecret(Naming.EnvName(ms[|ms| - 1].name), r.name, r.key)]
           case None => []
  }

  lemma {:induction false} FilterSnoc<T>(p: T -> bool, s: seq<T>, n: nat)
    requires n < |s|
    ensures Filter(p, s[..n + 1]) == Filter(p, s[..n]) + if p(s[n]) then [s[n]] else []
  {
    FilterAppend(p, s[..n], [s[n]]);
    assert s[..n + 1] == s[..n] + [s[n]];
    assert [s[n]][1..] == [];
    assert Filter(p, [s[n]]) == (if p(s[n]) then [s[n]] else []) + Filter(p, []);
  }

  lemma {:induction false} FilterAppend<T>(p: T -> bool, a: seq<T>, b: seq<T>)
    ensures Filter(p, a + b) == Filter(p, a) + Filter(p, b)
  {
    if a == [] {
      assert a + b == b;
      assert Filter(p, a) == [];
    } else {
      var s := a + b;
      assert s[0] == a[0] && s[1..] == a[1..] + b;
      FilterAppend(p, a[1..], b);
      var head := if p(a[0]) then [a[0]] else [];
      assert Filter(p, s) == head + Filter(p, s[1..]);
      assert head + (Filter(p, a[1..]) + Filter(p, b)) == (head + Filter(p, a[1..])) + Filter(p, b);
    }
  }

  lemma {:induction false} BearerSnoc(ms: seq<M.Mcp>, m: M.Mcp)
    ensures BearerEnv(ms + [m]) == BearerEnv(ms)
              + match BearerRef(m)
                case Some(r) => [FromSecret(Naming.EnvName(m.name), r.name, r.key)]
                case None => []
  {
    assert (ms + [m])[..|ms|] == ms;
  }

  /** What one MCP adds to the environment. */
  function EnvOf(g: GatewayKey, m: M.Mcp): seq<EnvVar> {
    if !ServedBy(g)(m) then []
    else
      match BearerRef(m)
      case Some(r) => [FromSecret(Naming.EnvName(m.name), r.name, r.key)]
      case None => []
  }

  lemma {:induction false} EnvStep(g: GatewayKey, sorted: seq<M.Mcp>, i: nat)
    requires i < |sorted|
    ensures BearerEnv(Filter(ServedBy(g), sorted[..i + 1])) ==
        BearerEnv(Filter(ServedBy(g), sorted[..i])) + EnvOf(g, sorted[i])
  {
    var p := ServedBy(g);
    FilterSnoc(p, sorted, i);
    if p(sorted[i]) {
      BearerSnoc(Filter(p, sorted[..i]), sorted[i]);
    } else {
      assert Filter(p, sorted[..i]) + [] == Filter(p, sorted[..i]);
    }
  }

  /** `_gateway_env`: sorts all MCPs, then skips the ones the gateway does not serve. */
  method GatewayEnv(g: GatewayKey, master: M.SecretRef, forwardAuth: Option<M.SecretRef>, mcps: seq<M.Mcp>)
    returns (env: seq<EnvVar>)
    ensures env == FixedEnv(master, forwardAuth) + BearerEnv(Served(g, mcps))
  {
    env := FixedEnv(master, forwardAuth);
    ghost var fixed := env;
    ghost var bearers: seq<EnvVar> := [];
    var sorted := SortBy(McpName, mcps);
    for i := 0 to |sorted|
      invariant env == fixed + bearers
      invariant bearers == BearerEnv(Filter(ServedBy(g), sorted[..i]))
    {
      var mcp := sorted[i];
      EnvStep(g, sorted, i);
      bearers := bearers + EnvOf(g, mcp);
      if !mcp.enabled || mcp.gateway != g {
        continue;
      }
      var ref := BearerRef(mcp);
      if ref.Some? {
        env := env + [FromSecret(Naming.EnvName(mcp.name), ref.value.name, ref.value.key)];
      }
    }
    assert sorted[..|sorted|] == sorted;
    FilterSorted(ServedBy(g), McpName, mcps);
  }

  // ---------------------------------------------------------------- sorting and filtering commute

  lemma {:induction false} FilterKeepsSorted<T>(p: T -> bool, key: T -> string, s: seq<T>)
    requires SortedBy(key, s)
    ensures SortedBy(key, Filter(p, s))
    ensures forall x | x in Filter(p, s) :: x in s && p(x)
  {
    if s != [] {
      FilterKeepsSorted(p, key, s[1..]);
      var t := Filter(p, s[1..]);
      forall j | 0 <= j < |t| ensures StrLe(key(s[0]), key(t[j])) {
        assert t[j] in s[1..];
        var i :| 0 <= i < |s[1..]| && s[1..][i] == t[j];
        assert s[i + 1] == t[j];
      }
    }
  }

  lemma {:induction false} FilterInsert<T>(p: T -> bool, key: T -> string, x: T, s: seq<T>)
    requires SortedBy(key, s)
    ensures Filter(p, InsertBy(key, x, s)) == if p(x) then InsertBy(key, x, Filter(p, s)) else Filter(p, s)
  {
    if s == [] || StrLe(key(x), key(s[0])) {
      assert ([x] + s)[1..] == s;
      if p(x) {
        FilterKeepsSorted(p, key, s);
        InsertInFront(key, x, s, Filter(p, s));
      }
    } else {
      FilterInsert(p, key, x, s[1..]);
      var rest, t := InsertBy(key, x, s[1..]), Filter(p, s[1..]);
      assert ([s[0]] + rest)[1..] == rest && ([s[0]] + t)[1..] == t;
      assert Filter(p, [s[0]] + rest) == (if p(s[0]) then [s[0]] else []) + Filter(p, rest);
      assert [] + t == t && [] + Filter(p, rest) == Filter(p, rest);
    }
  }

  lemma {:induction false} InsertInFront<T>(key: T -> string, x: T, s: seq<T>, t: seq<T>)
    requires SortedBy(key, s) && (s == [] || StrLe(key(x), key(s[0])))
    requires forall y | y in t :: y in s
    ensures InsertBy(key, x, t) == [x] + t
  {
    if t != [] {
      assert t[0] in s;
      var i :| 0 <= i < |s| && s[i] == t[0];
      StrLeReflexive(key(s[0]));
      StrLeTransitive(key(x), key(s[0]), key(s[i]));
    }
  }

  /** Filtering a stably sorted list is sorting the filtered one. */
  lemma {:induction false} FilterSorted<T>(p: T -> bool, key: T -> string, s: seq<T>)
    ensures Filter(p, SortBy(key, s)) == SortBy(key, Filter(p, s))
  {
    if s != [] {
      FilterSorted(p, key, s[1..]);
      SortByFacts(key, s[1..]);
      FilterInsert(p, key, s[0], SortBy(key, s[1..]));
      var t := Filter(p, s[1..]);
      assert ([s[0]] + t)[1..] == t && [] + t == t;
    }
  }

  // ---------------------------------------------------------------- agreement

  /** The variables a registry refers to, in order. */
  function References(specs: seq<UpstreamSpec>): seq<string> {
    if specs == [] then []
    else References(specs[..|specs| - 1])
         + if specs[|specs| - 1].bearer.Some? then [specs[|specs| - 1].bearer.value] else []
  }

  function EnvNames(env: seq<EnvVar>): seq<string> {
    MapSeq((e: EnvVar) => e.name, env)
  }

  /** The specs of the registry file a bundle is rendered with. */
  function RegistrySpecs(k: Kernel, entries: seq<Entry>): seq<UpstreamSpec> {
    SpecsOf(SortBy(UpstreamName, PreparedAll(k, SortBy(EntryName, entries))))
  }

  ghost predicate EntriesOf(g: GatewayKey, ms: seq<M.Mcp>, entries: seq<Entry>) {
    |entries| == |ms| && forall i | 0 <= i < |ms| :: ToEntry(g, ms[i]) == Some(entries[i])
  }

  /** Entries come in name order, so the kernel's own sorts leave them where they are. */
  lemma {:induction false} RegistryKeepsOrder(k: Kernel, g: GatewayKey, ms: seq<M.Mcp>, entries: seq<Entry>)
    requires EntriesOf(g, ms, entries) && SortedBy(McpName, ms)
    ensures RegistrySpecs(k, entries) == SpecsOf(PreparedAll(k, entries))
  {
    assert forall i | 0 <= i < |ms| :: entries[i].upstream.name == ms[i].name;
    assert SortedBy(EntryName, entries) by {
      forall i, j | 0 <= i < j < |entries| ensures StrLe(EntryName(entries[i]), EntryName(entries[j])) {
        assert StrLe(McpName(ms[i]), McpName(ms[j]));
      }
    }
    SortByIdentity(EntryName, entries);
    var us := PreparedAll(k, entries);
    assert SortedBy(UpstreamName, us) by {
      forall i, j | 0 <= i < j < |us| ensures StrLe(UpstreamName(us[i]), UpstreamName(us[j])) {
        assert StrLe(EntryName(entries[i]), EntryName(entries[j]));
      }
    }
    SortByIdentity(UpstreamName, us);
  }

  lemma {:induction false} ReferencesMatch(k: Kernel, g: GatewayKey, ms: seq<M.Mcp>, entries: seq<Entry>)
    requires EntriesOf(g, ms, entries)
    ensures References(SpecsOf(PreparedAll(k, entries))) == MapSeq(Reference, EnvNames(BearerEnv(ms)))
    decreases |ms|
  {
    if ms != [] {
      var n := |ms| - 1;
      ReferencesMatch(k, g, ms[..n], entries[..n]);
      var specs := SpecsOf(PreparedAll(k, entries));
      assert specs[..n] == SpecsOf(PreparedAll(k, entries[..n]));
      assert ToEntry(g, ms[n]) == Some(entries[n]);
      var before := BearerEnv(ms[..n]);
      if BearerRef(ms[n]).Some? {
        var v := FromSecret(Naming.EnvName(ms[n].name), BearerRef(ms[n]).value.name, BearerRef(ms[n]).value.key);
        assert EnvNames(before + [v]) == EnvNames(before) + [v.name];
        assert MapSeq(Reference, EnvNames(before) + [v.name]) ==
            MapSeq(Reference, EnvNames(before)) + [Reference(v.name)];
      }
    }
  }

  /** The `${...}` references of the rendered registry are, in order, exactly the bearer variables of
      the Deployment. */
  lemma {:induction false} RegistryMatchesEnv(k: Kernel, g: GatewayKey, mcps: seq<M.Mcp>, entries: seq<Entry>)
    requires EntriesOf(g, Served(g, mcps), entries)
    ensures References(RegistrySpecs(k, entries)) == MapSeq(Reference, EnvNames(BearerEnv(Served(g, mcps))))
  {
    SortByFacts(McpName, Filter(ServedBy(g), mcps));
    RegistryKeepsOrder(k, g, Served(g, mcps), entries);
    ReferencesMatch(k, g, Served(g, mcps), entries);
  }

  lemma {:induction false} BearerNames(ms: seq<M.Mcp>, e: EnvVar)
    requires e in BearerEnv(ms)
    ensures exists i :: 0 <= i < |ms| && Naming.EnvName(ms[i].name) == e.name
    decreases |ms|
  {
    var n := |ms| - 1;
    if e in BearerEnv(ms[..n]) {
      BearerNames(ms[..n], e);
      var i :| 0 <= i < n && Naming.EnvName(ms[..n][i].name) == e.name;
      assert ms[i] == ms[..n][i];
    } else {
      assert Naming.EnvName(ms[n].name) == e.name;
    }
  }

  lemma {:induction false} BearerEnvDistinct(ms: seq<M.Mcp>)
    requires forall i, j | 0 <= i < j < |ms| :: Naming.EnvName(ms[i].name) != Naming.EnvName(ms[j].name)
    ensures DistinctBy((e: EnvVar) => e.name, BearerEnv(ms))
    decreases |ms|
  {
    if ms != [] {
      var n := |ms| - 1;
      BearerEnvDistinct(ms[..n]);
      forall e | e in BearerEnv(ms[..n]) ensures e.name != Naming.EnvName(ms[n].name) {
        BearerNames(ms[..n], e);
        var i :| 0 <= i < n && Naming.EnvName(ms[..n][i].name) == e.name;
        assert ms[..n][i] == ms[i];
      }
    }
  }

  /** When the registry renders for lower-case names, no two MCPs share a bearer variable: equal
      variables would mean equal PascalCase names, and those are rejected. */
  lemma {:induction false} RenderedEnvIsDistinct(k: Kernel, g: GatewayKey, mcps: seq<M.Mcp>, entries: seq<Entry>,
                                                 skills: seq<Skill>)
    requires EntriesOf(g, Served(g, mcps), entries) && BundleOk(k, entries, skills)
    requires forall i | 0 <= i < |Served(g, mcps)| :: Naming.LowerCase(Served(g, mcps)[i].name)
    ensures DistinctBy((e: EnvVar) => e.name, BearerEnv(Served(g, mcps)))
  {
    var ms := Served(g, mcps);
    SortByFacts(McpName, Filter(ServedBy(g), mcps));
    RegistryNames(k, g, ms, entries);
    forall i, j | 0 <= i < j < |ms| ensures Naming.EnvName(ms[i].name) != Naming.EnvName(ms[j].name) {
      if Naming.EnvName(ms[i].name) == Naming.EnvName(ms[j].name) {
        Naming.EnvEqualPascalEqual(ms[i].name, ms[j].name);
      }
    }
    BearerEnvDistinct(ms);
  }

  lemma {:induction false} RegistryNames(k: Kernel, g: GatewayKey, ms: seq<M.Mcp>, entries: seq<Entry>)
    requires EntriesOf(g, ms, entries) && SortedBy(McpName, ms)
    requires RegistryOk(k, PreparedAll(k, SortBy(EntryName, entries)))
    ensures forall i, j | 0 <= i < j < |ms| :: Naming.Pascal(ms[i].name, true) != Naming.Pascal(ms[j].name, true)
  {
    RegistryKeepsOrder(k, g, ms, entries);
    var sorted := SortBy(UpstreamName, PreparedAll(k, SortBy(EntryName, entries)));
    var names := NamesOf(sorted);
    forall i | 0 <= i < |ms| ensures names[i] == ms[i].name {
      assert SpecsOf(sorted)[i] == SpecsOf(PreparedAll(k, entries))[i];
      assert ToEntry(g, ms[i]) == Some(entries[i]);
    }
  }

  /** Every variable of the Deployment has its own name: bearer variables cannot shadow the fixed ones. */
  lemma {:induction false} BearerNamesAreNotFixed(master: M.SecretRef, forwardAuth: Option<M.SecretRef>, name: string,
                                                  e: EnvVar)
    requires e in FixedEnv(master, forwardAuth)
    ensures e.name != Naming.EnvName(name)
  {
    assert Naming.EnvName(name)[5] == 'B';
    assert e.name[5] != 'B';
  }
}
