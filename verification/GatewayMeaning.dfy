/** What the two gateway renderers write, spelled out: where every upstream URL leads, what an entry carries, and which
    variables the Deployment gets from which secret. */
module GatewayMeaning {
  import opened Common
  import M = McpCodec
  import Naming
  import A = Artifacts
  import opened GatewayArtifacts

  // ---------------------------------------------------------------- numbers

  predicate IsDigit(c: char) {
    c in "0123456789"
  }

  function DigitValue(c: char): int {
    c as int - '0' as int
  }

  /** The number a row of decimal digits stands for. */
  function NumberOf(s: string): int {
    if s == [] then 0 else 10 * NumberOf(s[..|s| - 1]) + DigitValue(s[|s| - 1])
  }

  /** A numeral without sign and without leading zeros. */
  predicate Numeral(s: string) {
    s != [] && (forall i | 0 <= i < |s| :: IsDigit(s[i])) && (|s| == 1 || s[0] != '0')
  }

  /** `s` is the decimal form of `n`. */
  predicate Denotes(s: string, n: int) {
    if n < 0 then s != [] && s[0] == '-' && Numeral(s[1..]) && NumberOf(s[1..]) == -n
    else Numeral(s) && NumberOf(s) == n
  }

  lemma {:induction false} AppendDigit(t: string, c: char)
    requires Numeral(t) && t[0] != '0' && IsDigit(c)
    ensures Numeral(t + [c]) && NumberOf(t + [c]) == 10 * NumberOf(t) + DigitValue(c) && (t + [c])[0] != '0'
  {
    assert (t + [c])[..|t|] == t;
  }

  lemma {:induction false} OneDigit(d: nat)
    requires d < 10
    ensures var c := (d + '0' as int) as char;
            IsDigit(c) && DigitValue(c) == d && Numeral([c]) && NumberOf([c]) == d && (d > 0 ==> c != '0')
  {
    var c := (d + '0' as int) as char;
    assert "0123456789"[d] == c;
    assert [c][..0] == [];
  }

  lemma {:induction false} DigitsDenote(n: nat)
    ensures Numeral(Digits(n)) && NumberOf(Digits(n)) == n
    ensures n > 0 ==> Digits(n)[0] != '0'
  {
    OneDigit(n % 10);
    if n >= 10 {
      DigitsDenote(n / 10);
      AppendDigit(Digits(n / 10), (n % 10 + '0' as int) as char);
    }
  }

  lemma {:induction false} NumeralAtLeast(s: string)
    requires Numeral(s)
    ensures NumberOf(s) >= 0 && (|s| > 1 ==> NumberOf(s) >= 10)
  {
    if |s| > 1 {
      NumeralAtLeast(s[..|s| - 1]);
      assert NumberOf(s[..|s| - 1]) > 0 by {
        assert s[..|s| - 1][0] == s[0];
        if |s| == 2 { assert s[..1][..0] == []; }
      }
    } else {
      assert s[..0] == [];
    }
  }

  /** A number has one numeral. */
  lemma {:induction false} OneNumeral(s: string, t: string)
    requires Numeral(s) && Numeral(t) && NumberOf(s) == NumberOf(t)
    ensures s == t
  {
    NumeralAtLeast(s);
    NumeralAtLeast(t);
    if |s| > 1 && |t| > 1 {
      assert s[..|s| - 1][0] == s[0] && t[..|t| - 1][0] == t[0];
      LastDigits(s, t);
      OneNumeral(s[..|s| - 1], t[..|t| - 1]);
      assert s == s[..|s| - 1] + [s[|s| - 1]] && t == t[..|t| - 1] + [t[|t| - 1]];
    } else {
      assert |s| == 1 ==> s[..0] == [] && NumberOf(s) == DigitValue(s[0]) < 10;
      assert |t| == 1 ==> t[..0] == [] && NumberOf(t) == DigitValue(t[0]) < 10;
    }
  }

  lemma {:induction false} LastDigits(s: string, t: string)
    requires Numeral(s) && Numeral(t) && |s| > 1 && |t| > 1 && NumberOf(s) == NumberOf(t)
    ensures s[|s| - 1] == t[|t| - 1] && NumberOf(s[..|s| - 1]) == NumberOf(t[..|t| - 1])
  {
    assert IsDigit(s[|s| - 1]) && IsDigit(t[|t| - 1]);
    var a, b := DigitValue(s[|s| - 1]), DigitValue(t[|t| - 1]);
    TensAndUnits(NumberOf(s[..|s| - 1]), a, NumberOf(t[..|t| - 1]), b);
  }

  lemma {:induction false} TensAndUnits(x: int, a: int, y: int, b: int)
    requires 0 <= a < 10 && 0 <= b < 10 && 10 * x + a == 10 * y + b
    ensures x == y && a == b
  {
  }

  /** `Decimal` writes the one decimal form of a number. */
  lemma {:induction false} DecimalIff(s: string, n: int)
    ensures s == Decimal(n) <==> Denotes(s, n)
  {
    DigitsDenote(if n < 0 then -n else n);
    if n < 0 {
      assert Decimal(n)[1..] == Digits(-n);
      if Denotes(s, n) {
        OneNumeral(s[1..], Digits(-n));
        assert s == [s[0]] + s[1..];
      }
    } else if Denotes(s, n) {
      OneNumeral(s, Digits(n));
    }
  }

  // ---------------------------------------------------------------- where an upstream lives

  /** A URL inside the cluster: Service, namespace, port and path. */
  ghost predicate Addresses(url: string, service: string, namespace: string, port: int, path: string) {
    exists digits :: Denotes(digits, port) && url == "http://" + service + "." + namespace + ".svc:" + digits + path
  }

  /** The port that answers to a name is the first of that name. */
  predicate Answers(ports: seq<M.NamedPort>, name: string, p: M.NamedPort) {
    exists i | 0 <= i < |ports| ::
      ports[i] == p && p.name == name && forall j | 0 <= j < i :: ports[j].name != name
  }

  /** `path` with a slash in front, unless it has one. */
  predicate Rooted(path: string, rooted: string) {
    if path != [] && path[0] == '/' then rooted == path else rooted == ['/'] + path
  }

  /** The URL an MCP is reached at: a remote one as given; a container by the Service of its own gateway, at the
      port its endpoint names; a peer gateway, never the gateway itself, by its name and namespace. */
  ghost predicate ReachedAt(g: GatewayKey, m: M.Mcp, url: string) {
    match m.source
    case RemoteHttp(given, _) => url == given
    case VmcpProxy(peer, path, port, _) =>
      && (peer.namespace != g.namespace || peer.name != g.name)
      && exists rooted :: Rooted(path, rooted) && Addresses(url, peer.name, peer.namespace, port, rooted)
    case ContainerImage(_, ports, endpoint, _) =>
      exists p :: Answers(ports, endpoint.portName, p)
                  && Addresses(url, g.name + "-" + m.name, g.namespace, p.containerPort, endpoint.path)
  }

  lemma {:induction false} AddressesIff(url: string, service: string, namespace: string, port: int, path: string)
    ensures Addresses(url, service, namespace, port, path)
       <==> url == "http://" + service + "." + namespace + ".svc:" + Decimal(port) + path
  {
    DecimalIff(Decimal(port), port);
    if Addresses(url, service, namespace, port, path) {
      var digits :| Denotes(digits, port) && url == "http://" + service + "." + namespace + ".svc:" + digits + path;
      DecimalIff(digits, port);
    }
  }

  lemma {:induction false} FindPortIff(ports: seq<M.NamedPort>, name: string, p: M.NamedPort)
    ensures FindPort(ports, name) == Some(p) <==> Answers(ports, name, p)
  {
    if ports != [] {
      FindPortIff(ports[1..], name, p);
      if ports[0].name == name {
        if Answers(ports, name, p) {
          var i :| 0 <= i < |ports| && ports[i] == p && p.name == name
                   && forall j | 0 <= j < i :: ports[j].name != name;
          assert i == 0;
        }
      } else {
        AnswersLater(ports, name, p);
      }
    }
  }

  lemma {:induction false} AnswersLater(ports: seq<M.NamedPort>, name: string, p: M.NamedPort)
    requires ports != [] && ports[0].name != name
    ensures Answers(ports, name, p) <==> Answers(ports[1..], name, p)
  {
    if Answers(ports, name, p) {
      var i :| 0 <= i < |ports| && ports[i] == p && p.name == name && forall j | 0 <= j < i :: ports[j].name != name;
      assert ports[1..][i - 1] == p;
    }
    if Answers(ports[1..], name, p) {
      var i :| 0 <= i < |ports| - 1 && ports[1..][i] == p && p.name == name
               && forall j | 0 <= j < i :: ports[1..][j].name != name;
      assert ports[i + 1] == p;
      forall j | 0 <= j < i + 1 ensures ports[j].name != name {
        if j > 0 { assert ports[1..][j - 1] == ports[j]; }
      }
    }
  }

  lemma {:induction false} ProxyUrlIff(g: GatewayKey, m: M.Mcp, url: string)
    requires m.source.VmcpProxy?
    ensures Url(g, m) == Some(url) <==> ReachedAt(g, m, url)
  {
    var s := m.source;
    var rooted := if StartsWith(s.path, "/") then s.path else "/" + s.path;
    assert forall r :: Rooted(s.path, r) <==> r == rooted;
    AddressesIff(url, s.peer.name, s.peer.namespace, s.port, rooted);
    if s.peer.namespace == g.namespace && s.peer.name == g.name {
      assert s.peer == g;
    }
  }

  lemma {:induction false} ContainerUrlIff(g: GatewayKey, m: M.Mcp, url: string)
    requires m.source.ContainerImage?
    ensures Url(g, m) == Some(url) <==> ReachedAt(g, m, url)
  {
    var s := m.source;
    var found := FindPort(s.ports, s.endpoint.portName);
    forall p ensures found == Some(p) <==> Answers(s.ports, s.endpoint.portName, p) {
      FindPortIff(s.ports, s.endpoint.portName, p);
    }
    if found.Some? {
      var service := g.name + "-" + m.name;
      AddressesIff(url, service, g.namespace, found.value.containerPort, s.endpoint.path);
      assert "http://" + service + "." == "http://" + g.name + "-" + m.name + ".";
    }
  }

  lemma {:induction false} UrlIff(g: GatewayKey, m: M.Mcp, url: string)
    ensures Url(g, m) == Some(url) <==> ReachedAt(g, m, url)
  {
    match m.source
    case RemoteHttp(_, _) =>
    case VmcpProxy(_, _, _, _) => ProxyUrlIff(g, m, url);
    case ContainerImage(_, _, _, _) => ContainerUrlIff(g, m, url);
  }

  // ---------------------------------------------------------------- bearer variables

  /** A letter of a variable name: capital, and a dash becomes an underscore. */
  predicate Shouted(c: char, d: char) {
    if 'a' <= c <= 'z' then d as int == c as int - 32 else if c == '-' then d == '_' else d == c
  }

  /** The variable a bearer token is handed over in. */
  predicate BearerVariable(name: string, v: string) {
    && |v| == 12 + |name| && v[..12] == "VMCP_BEARER_"
    && forall i | 0 <= i < |name| :: Shouted(name[i], v[12 + i])
  }

  /** Remote MCPs and proxies may name a secret; containers have none. */
  function SecretOf(m: M.Mcp): Option<M.SecretRef> {
    match m.source
    case RemoteHttp(_, bearer) => bearer
    case VmcpProxy(_, _, _, bearer) => bearer
    case ContainerImage(_, _, _, _) => None
  }

  lemma {:induction false} EnvNameIff(name: string, v: string)
    ensures v == Naming.EnvName(name) <==> BearerVariable(name, v)
  {
    var e := Naming.EnvName(name);
    assert |"VMCP_BEARER_"| == 12;
    assert |e| == 12 + |name| && e[..12] == "VMCP_BEARER_";
    assert forall i | 0 <= i < |name| :: e[12 + i] == Naming.EnvChar(name[i]);
    assert forall c, d :: Shouted(c, d) <==> d == Naming.EnvChar(c);
    if BearerVariable(name, v) {
      forall i | 0 <= i < |v| ensures v[i] == e[i] {
        if i < 12 { assert v[..12][i] == e[..12][i]; } else { assert Shouted(name[i - 12], v[12 + (i - 12)]); }
      }
    }
  }

  // ---------------------------------------------------------------- entries

  predicate Supports(text: Option<string>, s: Option<A.TaskSupport>) {
    || (text == None && s == None)
    || (text == Some("forbidden") && s == Some(A.Forbidden))
    || (text == Some("optional") && s == Some(A.TaskSupport.Optional))
    || (text == Some("required") && s == Some(A.Required))
  }

  predicate SameOverride(a: M.ToolOverride, b: A.ToolOverride) {
    b.name == a.name && b.readOnly == a.readOnly && Supports(a.taskSupport, b.taskSupport)
  }

  /** The entry of one MCP: its own name and URL, its bearer variable if it names a secret, every override. */
  ghost predicate Describes(g: GatewayKey, m: M.Mcp, e: A.Entry) {
    && e.upstream.name == m.name && ReachedAt(g, m, e.upstream.url)
    && (if SecretOf(m).None? then e.upstream.bearerEnv == None
        else e.upstream.bearerEnv.Some? && BearerVariable(m.name, e.upstream.bearerEnv.value))
    && e.upstream.description == m.description && e.upstream.sidecar == None
    && e.upstream.enabled == true && e.upstream.forwardIdentity == m.forwardIdentity
    && |e.toolOverrides| == |m.toolOverrides|
    && forall i | 0 <= i < |m.toolOverrides| :: SameOverride(m.toolOverrides[i], e.toolOverrides[i])
  }

  lemma {:induction false} OverridesIff(ovs: seq<M.ToolOverride>, r: seq<A.ToolOverride>)
    ensures ToOverrides(ovs) == Some(r)
       <==> |r| == |ovs| && forall i | 0 <= i < |ovs| :: SameOverride(ovs[i], r[i])
  {
    if ovs == [] {
    } else if r != [] {
      OverridesIff(ovs[1..], r[1..]);
      assert r == [r[0]] + r[1..];
      var head := A.ToolOverride(ovs[0].name, ovs[0].readOnly, r[0].taskSupport);
      assert SameOverride(ovs[0], r[0]) <==> ToSupport(ovs[0].taskSupport) == Some(r[0].taskSupport) && r[0] == head;
      if forall i | 0 <= i < |ovs[1..]| :: |r| == |ovs| && SameOverride(ovs[1..][i], r[1..][i]) {
        forall i | 1 <= i < |ovs| ensures SameOverride(ovs[i], r[i]) {
          assert ovs[1..][i - 1] == ovs[i] && r[1..][i - 1] == r[i];
        }
      }
      if |r| == |ovs| && forall i | 0 <= i < |ovs| :: SameOverride(ovs[i], r[i]) {
        forall i | 0 <= i < |ovs| - 1 ensures SameOverride(ovs[1..][i], r[1..][i]) {
          assert ovs[1..][i] == ovs[i + 1] && r[1..][i] == r[i + 1];
        }
      }
    }
  }

  lemma {:induction false} UpstreamIff(g: GatewayKey, m: M.Mcp, u: A.Upstream)
    ensures ToUpstream(g, m) == Some(u) <==> Describes(g, m.(toolOverrides := []), A.Entry(u, []))
  {
    var bare := m.(toolOverrides := []);
    UrlIff(g, bare, u.url);
    assert Url(g, bare) == Url(g, m) && BearerRef(m) == SecretOf(m) == SecretOf(bare);
    if u.bearerEnv.Some? { EnvNameIff(m.name, u.bearerEnv.value); }
  }

  /** An MCP becomes an entry exactly when the entry describes it; otherwise the renderer raises. */
  lemma {:induction false} EntryIff(g: GatewayKey, m: M.Mcp, e: A.Entry)
    ensures ToEntry(g, m) == Some(e) <==> Describes(g, m, e)
  {
    UpstreamIff(g, m, e.upstream);
    OverridesIff(m.toolOverrides, e.toolOverrides);
    var bare := m.(toolOverrides := []);
    assert ReachedAt(g, bare, e.upstream.url) <==> ReachedAt(g, m, e.upstream.url) by {
      UrlIff(g, m, e.upstream.url);
      UrlIff(g, bare, e.upstream.url);
    }
  }

  // ---------------------------------------------------------------- the served ones

  lemma {:induction false} FilterCounts<T>(p: T -> bool, s: seq<T>, x: T)
    ensures multiset(Filter(p, s))[x] == if p(x) then multiset(s)[x] else 0
  {
    if s != [] {
      FilterCounts(p, s[1..], x);
      assert s == [s[0]] + s[1..];
    }
  }

  /** What a gateway serves: its own enabled MCPs, each as often as it is given, in name order. */
  lemma {:induction false} ServedAre(g: GatewayKey, mcps: seq<M.Mcp>, m: M.Mcp)
    ensures multiset(Served(g, mcps))[m] == if m.enabled && m.gateway == g then multiset(mcps)[m] else 0
    ensures forall i, j | 0 <= i < j < |Served(g, mcps)| :: StrLe(Served(g, mcps)[i].name, Served(g, mcps)[j].name)
  {
    FilterCounts(ServedBy(g), mcps, m);
    SortByFacts(McpName, Filter(ServedBy(g), mcps));
    forall i, j | 0 <= i < j < |Served(g, mcps)| ensures StrLe(Served(g, mcps)[i].name, Served(g, mcps)[j].name) {
      assert StrLe(McpName(Served(g, mcps)[i]), McpName(Served(g, mcps)[j]));
    }
  }

  /** MCPs of one name keep the order they were given in. */
  lemma {:induction false} TiesKeepOrder(mcps: seq<M.Mcp>, name: string)
    ensures var same := (m: M.Mcp) => m.name == name;
            Filter(same, SortBy(McpName, mcps)) == Filter(same, mcps)
  {
    var same := (m: M.Mcp) => m.name == name;
    FilterSorted(same, McpName, mcps);
    var t := Filter(same, mcps);
    forall m ensures multiset(t)[m] == if same(m) then multiset(mcps)[m] else 0 { FilterCounts(same, mcps, m); }
    forall i, j | 0 <= i < j < |t| ensures StrLe(McpName(t[i]), McpName(t[j])) {
      assert t[i] in multiset(t) && t[j] in multiset(t);
      StrLeReflexive(name);
    }
    SortByIdentity(McpName, t);
  }

  predicate HasSecret(m: M.Mcp) {
    SecretOf(m).Some?
  }

  /** One variable of the Deployment, from the secret an MCP names. */
  predicate HandsOver(m: M.Mcp, e: EnvVar) {
    SecretOf(m).Some? && BearerVariable(m.name, e.name)
    && e == FromSecret(e.name, SecretOf(m).value.name, SecretOf(m).value.key)
  }

  lemma {:induction false} BearersAre(ms: seq<M.Mcp>)
    ensures var with := Filter(HasSecret, ms);
            |BearerEnv(ms)| == |with| && forall i | 0 <= i < |with| :: HandsOver(with[i], BearerEnv(ms)[i])
    decreases |ms|
  {
    if ms != [] {
      var n := |ms| - 1;
      BearersAre(ms[..n]);
      FilterSnoc(HasSecret, ms, n);
      assert ms[..n + 1] == ms;
      EnvNameIff(ms[n].name, Naming.EnvName(ms[n].name));
      assert BearerRef(ms[n]) == SecretOf(ms[n]);
    }
  }

  predicate FixedPart(env: seq<EnvVar>, master: M.SecretRef, forwardAuth: Option<M.SecretRef>) {
    && |env| == (if forwardAuth.None? then 4 else 5)
    && env[0] == Plain("VMCP_CONFIG", "/config/vmcp.toml")
    && env[1] == Plain("VMCP_REGISTRY_PATH", "/config/registry.json")
    && env[2] == Plain("VMCP_SKILLS_DIR", "/state/skills")
    && env[3] == FromSecret("VMCP_AUTH__MASTER_PASSWORD_ARGON2", master.name, master.key)
    && (forwardAuth.Some? ==> env[4] == FromSecret("VMCP_AUTH__AUTHENTIK__FORWARD_AUTH_SECRET",
                                                   forwardAuth.value.name, forwardAuth.value.key))
  }

  lemma {:induction false} FixedIs(master: M.SecretRef, forwardAuth: Option<M.SecretRef>)
    ensures FixedPart(FixedEnv(master, forwardAuth), master, forwardAuth)
  {
  }

  /** The MCPs that hand a secret over, in name order. */
  lemma {:induction false} SecretsServed(g: GatewayKey, mcps: seq<M.Mcp>) returns (with: seq<M.Mcp>)
    ensures with == Filter(HasSecret, Served(g, mcps))
    ensures forall m :: multiset(with)[m] ==
                if m.enabled && m.gateway == g && SecretOf(m).Some? then multiset(mcps)[m] else 0
    ensures forall i, j | 0 <= i < j < |with| :: StrLe(with[i].name, with[j].name)
  {
    with := Filter(HasSecret, Served(g, mcps));
    forall m ensures multiset(with)[m] ==
                       if m.enabled && m.gateway == g && SecretOf(m).Some? then multiset(mcps)[m] else 0
    {
      FilterCounts(HasSecret, Served(g, mcps), m);
      ServedAre(g, mcps, m);
    }
    SortByFacts(McpName, Filter(ServedBy(g), mcps));
    FilterKeepsSorted(HasSecret, McpName, Served(g, mcps));
    forall i, j | 0 <= i < j < |with| ensures StrLe(with[i].name, with[j].name) {
      assert StrLe(McpName(with[i]), McpName(with[j]));
    }
  }

  /** The environment of a gateway's Deployment: the fixed variables with the forward-auth secret if there is one, and
      then one variable per enabled MCP of this gateway that names a secret, in name order and no other. */
  lemma {:induction false} EnvironmentIs(g: GatewayKey, master: M.SecretRef, forwardAuth: Option<M.SecretRef>,
                                         mcps: seq<M.Mcp>, env: seq<EnvVar>) returns (with: seq<M.Mcp>)
    requires env == FixedEnv(master, forwardAuth) + BearerEnv(Served(g, mcps))
    ensures forall m :: multiset(with)[m] ==
                if m.enabled && m.gateway == g && SecretOf(m).Some? then multiset(mcps)[m] else 0
    ensures forall i, j | 0 <= i < j < |with| :: StrLe(with[i].name, with[j].name)
    ensures var n := if forwardAuth.None? then 4 else 5;
            && |env| == n + |with| && FixedPart(env[..n], master, forwardAuth)
            && forall i | 0 <= i < |with| :: HandsOver(with[i], env[n..][i])
  {
    with := SecretsServed(g, mcps);
    BearersAre(Served(g, mcps));
    FixedIs(master, forwardAuth);
    var n := |FixedEnv(master, forwardAuth)|;
    assert env[..n] == FixedEnv(master, forwardAuth) && env[n..] == BearerEnv(Served(g, mcps));
  }

  /** The entries handed to the kernel, in name order; when one MCP cannot be described nothing is rendered. */
  lemma {:induction false} EntriesAre(g: GatewayKey, mcps: seq<M.Mcp>, entries: seq<A.Entry>)
    ensures EntriesOf(g, Served(g, mcps), entries)
       <==> |entries| == |Served(g, mcps)|
            && forall i | 0 <= i < |entries| :: Describes(g, Served(g, mcps)[i], entries[i])
  {
    var ms := Served(g, mcps);
    forall m, e ensures ToEntry(g, m) == Some(e) <==> Describes(g, m, e) {
      EntryIff(g, m, e);
    }
  }
}
